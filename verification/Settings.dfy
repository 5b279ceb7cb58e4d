/** The settings that the server sends before a message (src/server/output.c) and the
    module reads back (do_set in src/modules/module_utils.c, src/libs/common/fdsetconv.c). */
module Settings {
  import opened CStrings
  import OutputFraming

  /** The fields of msg_settings; enumerations are the C integers. */
  datatype MsgSettings = MsgSettings(
    pitch: int, rate: int, volume: int, punctuation: int, spelling: int, capLetRecogn: int, voiceType: int,
    language: Option<string>, name: Option<string>)

  // ---- enumerations and their names

  function Voice2Str(voice: int): string
  {
    match voice
    case 1 => "male1"
    case 2 => "male2"
    case 3 => "male3"
    case 4 => "female1"
    case 5 => "female2"
    case 6 => "female3"
    case 7 => "child_male"
    case 8 => "child_female"
    case _ => "NULL"
  }

  function Str2Voice(str: string): int
  {
    if str == "male1" then 1
    else if str == "male2" then 2
    else if str == "male3" then 3
    else if str == "female1" then 4
    else if str == "female2" then 5
    else if str == "female3" then 6
    else if str == "child_male" then 7
    else if str == "child_female" then 8
    else 0
  }

  function Punct2Str(punct: int): string
  {
    match punct
    case 0 => "all"
    case 1 => "none"
    case 2 => "some"
    case _ => "NULL"
  }

  /** None stands for SPD_PUNCT_ERR. */
  function Str2Punct(str: string): Option<int>
  {
    if str == "none" then Some(1) else if str == "all" then Some(0) else if str == "some" then Some(2) else None
  }

  function Spell2Str(spell: int): string
  {
    match spell
    case 0 => "off"
    case 1 => "on"
    case _ => "NULL"
  }

  function Str2Spell(str: string): Option<int>
  {
    if str == "on" then Some(1) else if str == "off" then Some(0) else None
  }

  function Recogn2Str(recogn: int): string
  {
    match recogn
    case 0 => "none"
    case 1 => "spell"
    case 2 => "icon"
    case _ => "NULL"
  }

  function Str2Recogn(str: string): Option<int>
  {
    if str == "none" then Some(0) else if str == "spell" then Some(1) else if str == "icon" then Some(2) else None
  }

  function Name2Str(name: Option<string>): string
  {
    if name.None? then "NULL" else name.value
  }

  function Str2Name(str: string): Option<string>
  {
    if str == "NULL" then None else Some(str)
  }

  // ---- what the server sends

  datatype Item = Pitch | Rate | Volume | Punctuation | Spelling | CapLetRecogn | Voice | Language | SynthesisVoice

  function ItemName(i: Item): string
  {
    match i
    case Pitch => "pitch"
    case Rate => "rate"
    case Volume => "volume"
    case Punctuation => "punctuation_mode"
    case Spelling => "spelling_mode"
    case CapLetRecogn => "cap_let_recogn"
    case Voice => "voice"
    case Language => "language"
    case SynthesisVoice => "synthesis_voice"
  }

  /** The value of an item as it is printed. */
  function Printed(s: MsgSettings, i: Item): string
  {
    match i
    case Pitch => PrintInt(s.pitch)
    case Rate => PrintInt(s.rate)
    case Volume => PrintInt(s.volume)
    case Punctuation => Punct2Str(s.punctuation)
    case Spelling => Spell2Str(s.spelling)
    case CapLetRecogn => Recogn2Str(s.capLetRecogn)
    case Voice => Voice2Str(s.voiceType)
    case Language => Name2Str(s.language)
    case SynthesisVoice => Name2Str(s.name)
  }

  function Line(i: Item, value: string): string
  {
    ItemName(i) + "=" + value + "\n"
  }

  const ITEMS := [Pitch, Rate, Volume, Punctuation, Spelling, CapLetRecogn, Voice, Language, SynthesisVoice]

  /** The lines of these items and the terminator. */
  function Sent(s: MsgSettings, items: seq<Item>): string
  {
    if items == [] then ".\n" else Line(items[0], Printed(s, items[0])) + Sent(s, items[1..])
  }

  /** output_send_settings: what follows the SET command. */
  method OutputSendSettings(s: MsgSettings) returns (data: string)
    ensures data == Sent(s, ITEMS)
  {
    hide Line, Sent, PrintInt, Punct2Str, Spell2Str, Recogn2Str, Voice2Str, Name2Str;
    var setStr := "";
    SentFrom(setStr, s, 0);
    setStr := setStr + Line(Pitch, PrintInt(s.pitch));
    SentFrom(setStr, s, 1);
    setStr := setStr + Line(Rate, PrintInt(s.rate));
    SentFrom(setStr, s, 2);
    setStr := setStr + Line(Volume, PrintInt(s.volume));
    SentFrom(setStr, s, 3);
    setStr := setStr + Line(Punctuation, Punct2Str(s.punctuation));
    SentFrom(setStr, s, 4);
    setStr := setStr + Line(Spelling, Spell2Str(s.spelling));
    SentFrom(setStr, s, 5);
    setStr := setStr + Line(CapLetRecogn, Recogn2Str(s.capLetRecogn));
    SentFrom(setStr, s, 6);
    setStr := setStr + Line(Voice, Voice2Str(s.voiceType));
    SentFrom(setStr, s, 7);
    setStr := setStr + Line(Language, Name2Str(s.language));
    SentFrom(setStr, s, 8);
    setStr := setStr + Line(SynthesisVoice, Name2Str(s.name));
    SentEnd(setStr, s);
    data := setStr + ".\n";
  }

  lemma SentFrom(out: string, s: MsgSettings, k: nat)
    requires k < 9
    ensures out + Sent(s, ITEMS[k..]) == out + Line(ITEMS[k], Printed(s, ITEMS[k])) + Sent(s, ITEMS[k + 1..])
    ensures ITEMS[0..] == ITEMS && "" + Sent(s, ITEMS) == Sent(s, ITEMS)
  {
    SentNext(s, k);
    hide *;
    assert ITEMS[0..] == ITEMS && "" + Sent(s, ITEMS) == Sent(s, ITEMS);
    Assoc(out, Line(ITEMS[k], Printed(s, ITEMS[k])), Sent(s, ITEMS[k + 1..]));
  }

  lemma SentEnd(out: string, s: MsgSettings)
    ensures out + Sent(s, ITEMS[9..]) == out + ".\n"
  {}

  lemma SentNext(s: MsgSettings, k: nat)
    requires k < 9
    ensures Sent(s, ITEMS[k..]) == Line(ITEMS[k], Printed(s, ITEMS[k])) + Sent(s, ITEMS[k + 1..])
  {
    hide Line, Printed;
    assert ITEMS[k..][1..] == ITEMS[k + 1..];
  }

  // ---- what the module reads

  /** The head of s up to character c, and what follows it. */
  function UpTo(s: string, c: char): string
  {
    if s == "" || s[0] == c then "" else [s[0]] + UpTo(s[1..], c)
  }

  function After(s: string, c: char): string
  {
    if s == "" then "" else if s[0] == c then s[1..] else After(s[1..], c)
  }

  function SkipAll(s: string, c: char): string
  {
    if s != "" && s[0] == c then SkipAll(s[1..], c) else s
  }

  /** strtok with one delimiter: the token, and where the next call goes on. */
  function Strtok(s: string, c: char): Option<(string, string)>
  {
    var t := SkipAll(s, c);
    if t == "" then None else Some((UpTo(t, c), After(t, c)))
  }

  const LONG_MAX: int := 0x7fff_ffff_ffff_ffff

  /** The conversion of strtol's result to int. */
  function ToInt(n: int): int
  {
    var long := if n > LONG_MAX then LONG_MAX else if n < -LONG_MAX - 1 then -LONG_MAX - 1 else n;
    (long + 0x8000_0000) % 0x1_0000_0000 - 0x8000_0000
  }

  /** set_numeric_parameter; all three parameters range from -100 to 100. */
  function Number(text: string): Option<int>
  {
    match Strtol(text)
    case None => None
    case Some(n) => if -100 <= ToInt(n) <= 100 then Some(ToInt(n)) else None
  }

  const SETTINGS_OK := 0
  const SETTINGS_BAD_SYNTAX := 1
  const SETTINGS_BAD_ITEM := 2

  function Named(item: string): Option<Item>
  {
    if item == "rate" then Some(Rate)
    else if item == "pitch" then Some(Pitch)
    else if item == "volume" then Some(Volume)
    else if item == "punctuation_mode" then Some(Punctuation)
    else if item == "spelling_mode" then Some(Spelling)
    else if item == "cap_let_recogn" then Some(CapLetRecogn)
    else if item == "voice" then Some(Voice)
    else if item == "synthesis_voice" then Some(SynthesisVoice)
    else if item == "language" then Some(Language)
    else None
  }

  /** One setting is stored, or refused. */
  function Store(s: MsgSettings, i: Item, v: string): (MsgSettings, int)
  {
    match i
    case Pitch => (match Number(v) case Some(n) => (s.(pitch := n), SETTINGS_OK) case None => (s, SETTINGS_BAD_ITEM))
    case Rate => (match Number(v) case Some(n) => (s.(rate := n), SETTINGS_OK) case None => (s, SETTINGS_BAD_ITEM))
    case Volume => (match Number(v) case Some(n) => (s.(volume := n), SETTINGS_OK) case None => (s, SETTINGS_BAD_ITEM))
    case Punctuation => (match Str2Punct(v) case Some(n) => (s.(punctuation := n), SETTINGS_OK)
                         case None => (s, SETTINGS_BAD_ITEM))
    case Spelling => (match Str2Spell(v) case Some(n) => (s.(spelling := n), SETTINGS_OK)
                      case None => (s, SETTINGS_BAD_ITEM))
    case CapLetRecogn => (match Str2Recogn(v) case Some(n) => (s.(capLetRecogn := n), SETTINGS_OK)
                          case None => (s, SETTINGS_BAD_ITEM))
    case Voice => (s.(voiceType := Str2Voice(v)), SETTINGS_OK)
    case Language => (s.(language := Str2Name(v)), SETTINGS_OK)
    case SynthesisVoice => (s.(name := Str2Name(v)), SETTINGS_OK)
  }

  /** One line, when no error occurred so far. */
  function SetLine(s: MsgSettings, line: string): (MsgSettings, int)
  {
    match Strtok(line, '=')
    case None => (s, SETTINGS_BAD_SYNTAX)
    case Some((item, rest)) =>
      match Strtok(rest, '\n')
      case None => (s, SETTINGS_BAD_SYNTAX)
      case Some((value, _)) =>
        match Named(item)
        case None => (s, SETTINGS_BAD_ITEM)
        case Some(i) => Store(s, i, value)
  }

  /** The reading loop of do_set: the settings, the error and the input left. */
  function ReadSettings(input: string, s: MsgSettings, err: int): (MsgSettings, int, string)
    decreases |input|
  {
    match OutputFraming.GetLine(input)
    case None => (s, SETTINGS_BAD_SYNTAX, input)
    case Some((line, rest)) =>
      if line == ".\n" then (s, err, rest)
      else if err != SETTINGS_OK then ReadSettings(rest, s, err)
      else var (s', err') := SetLine(s, line); ReadSettings(rest, s', err')
  }

  class Module {
    var msgSettings: MsgSettings

    constructor (initial: MsgSettings)
      ensures msgSettings == initial
    {
      msgSettings := initial;
    }

    /** The branches of do_set on the name of the item. */
    method SetItem(curItem: string, curValue: string) returns (err: int)
      modifies this
      ensures (msgSettings, err) == match Named(curItem)
                                    case None => (old(msgSettings), SETTINGS_BAD_ITEM)
                                    case Some(i) => Store(old(msgSettings), i, curValue)
    {
      hide Number, Str2Punct, Str2Spell, Str2Recogn, Str2Voice, Str2Name;
      err := SETTINGS_OK;
      if curItem == "rate" {
        err := SetNumericParameter(curValue, Rate);
      } else if curItem == "pitch" {
        err := SetNumericParameter(curValue, Pitch);
      } else if curItem == "volume" {
        err := SetNumericParameter(curValue, Volume);
      } else if curItem == "punctuation_mode" {
        var ret := Str2Punct(curValue);
        if ret.Some? { msgSettings := msgSettings.(punctuation := ret.value); } else { err := SETTINGS_BAD_ITEM; }
      } else if curItem == "spelling_mode" {
        var ret := Str2Spell(curValue);
        if ret.Some? { msgSettings := msgSettings.(spelling := ret.value); } else { err := SETTINGS_BAD_ITEM; }
      } else if curItem == "cap_let_recogn" {
        var ret := Str2Recogn(curValue);
        if ret.Some? { msgSettings := msgSettings.(capLetRecogn := ret.value); } else { err := SETTINGS_BAD_ITEM; }
      } else if curItem == "voice" {
        msgSettings := msgSettings.(voiceType := Str2Voice(curValue));
      } else if curItem == "synthesis_voice" {
        msgSettings := msgSettings.(name := Str2Name(curValue));
      } else if curItem == "language" {
        msgSettings := msgSettings.(language := Str2Name(curValue));
      } else {
        err := SETTINGS_BAD_ITEM;
      }
    }

    method SetNumericParameter(numText: string, target: Item) returns (err: int)
      requires target in {Pitch, Rate, Volume}
      modifies this
      ensures (msgSettings, err) == Store(old(msgSettings), target, numText)
    {
      var number := Strtol(numText);
      if number.None? {
        return SETTINGS_BAD_ITEM;
      }
      var n := ToInt(number.value);
      if n < -100 || n > 100 {
        return SETTINGS_BAD_ITEM;
      }
      if target == Pitch {
        msgSettings := msgSettings.(pitch := n);
      } else if target == Rate {
        msgSettings := msgSettings.(rate := n);
      } else {
        msgSettings := msgSettings.(volume := n);
      }
      return SETTINGS_OK;
    }

    /** do_set: 203 is answered for error 0, 302 for 1 and 303 for 2. */
    method DoSet(stdin: OutputFraming.ModuleInput) returns (err: int)
      modifies this, stdin
      ensures (msgSettings, err, stdin.stdin) == ReadSettings(old(stdin.stdin), old(msgSettings), SETTINGS_OK)
    {
      hide Strtok, Named, Store, OutputFraming.GetLine;
      err := SETTINGS_OK;
      while true
        invariant ReadSettings(stdin.stdin, msgSettings, err) ==
                    ReadSettings(old(stdin.stdin), old(msgSettings), SETTINGS_OK)
        decreases |stdin.stdin|
      {
        var line := stdin.OttsGetline();
        if line.None? {
          err := SETTINGS_BAD_SYNTAX;
          break;
        }
        if line.value == ".\n" {
          break;
        }
        if err == SETTINGS_OK {
          var item := Strtok(line.value, '=');
          if item.None? {
            err := SETTINGS_BAD_SYNTAX;
            continue;
          }
          var value := Strtok(item.value.1, '\n');
          if value.None? {
            err := SETTINGS_BAD_SYNTAX;
            continue;
          }
          err := SetItem(item.value.0, value.value.0);
        }
      }
    }
  }
}
