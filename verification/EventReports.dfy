/** How events travel: from an output module to the server (src/modules/module_utils.c,
    src/server/output.c), and on to the callbacks of a client (src/server/speaking.c,
    src/api/c/libopentts.c).  Replies with parameters go the last part of the way too. */
module EventReports {
  import opened CStrings
  import OutputFraming
  import Handshake

  // ---- reading a message of several lines

  /** get_reply and output_read_reply: lines up to one that is shorter than four bytes or
      has a blank behind its number; None at the end of the input. */
  function ReadReply(input: string, str: string): Option<(string, string)>
    decreases |input|
  {
    match OutputFraming.GetLine(input)
    case None => None
    case Some((line, rest)) =>
      if |line| < 4 || line[3] == ' ' then Some((str + line, rest)) else ReadReply(rest, str + line)
  }

  method GetReply(stream: OutputFraming.ModuleInput) returns (reply: Option<string>)
    modifies stream
    ensures match ReadReply(old(stream.stdin), "")
            case None => reply == None
            case Some((r, rest)) => reply == Some(r) && stream.stdin == rest
  {
    hide OutputFraming.GetLine;
    var str := "";
    while true
      invariant ReadReply(stream.stdin, str) == ReadReply(old(stream.stdin), "")
      decreases |stream.stdin|
    {
      var line := stream.OttsGetline();
      if line.None? {
        return None;
      }
      str := str + line.value;
      if |line.value| < 4 || line.value[3] == ' ' {
        return Some(str);
      }
    }
  }

  // ---- parameters

  /** The text at which strtol stops: the text itself if there is no number. */
  function StrtolEnd(s: string): string
  {
    if s != "" && IsCSpace(s[0]) then (if Strtol(s[1..]).None? then s else StrtolEnd(s[1..]))
    else
      var body := if s != "" && (s[0] == '-' || s[0] == '+') then s[1..] else s;
      if body == "" || !IsDigit(body[0]) then s else SkipDigits(body)
  }

  function SkipDigits(s: string): string
  {
    if s != "" && IsDigit(s[0]) then SkipDigits(s[1..]) else s
  }

  function StrtolValue(s: string): int
  {
    match Strtol(s)
    case None => 0
    case Some(n) => n
  }

  /** The text behind n ends of lines. */
  function SkipLines(s: string, n: nat): Option<string>
    decreases n
  {
    if n == 0 then Some(s)
    else match AfterFirst(s, "\r\n")
         case None => None
         case Some(t) => SkipLines(t, n - 1)
  }

  /** The parameter of the line at the head of pos, and the error. */
  function ParamOf(pos: string, err: int): (Option<string>, int)
  {
    if |pos| < 4 then (None, err)
    else
      var code := StrtolValue(pos);
      if 300 <= code <= 399 then (None, code)
      else if StrtolEnd(pos) != pos[3..] || pos[3] != '-' then (None, -3)
      else match Find(pos[4..], "\r\n")
           case None => (None, -4)
           case Some(k) => (Some(pos[4..4 + k]), 0)
  }

  /** get_param_str; err is the value that *err has before. */
  function GetParamStr(reply: string, num: int, err: int): (Option<string>, int)
  {
    if num < 1 then (None, -1)
    else match SkipLines(reply, num - 1)
         case None => (None, -2)
         case Some(pos) => ParamOf(pos, err)
  }

  /** get_param_int. */
  function GetParamInt(reply: string, num: int, err: int): (int, int)
  {
    match GetParamStr(reply, num, err)
    case (None, e) => (0, e)
    case (Some(rep), e) => if StrtolEnd(rep) != "" then (0, -3) else (StrtolValue(rep), e)
  }

  method ParamStr(reply: string, num: int, err0: int) returns (rep: Option<string>, err: int)
    ensures (rep, err) == GetParamStr(reply, num, err0)
  {
    hide StrtolEnd, StrtolValue, Find, AfterFirst;
    err := err0;
    if num < 1 {
      return None, -1;
    }
    var pos := reply;
    var i := 0;
    while i <= num - 2
      invariant 0 <= i <= num - 1 && SkipLines(pos, num - 1 - i) == SkipLines(reply, num - 1)
    {
      var next := AfterFirst(pos, "\r\n");
      if next.None? {
        return None, -2;
      }
      pos := next.value;
      i := i + 1;
    }
    if |pos| < 4 {
      return None, err;
    }
    err := StrtolValue(pos);
    if 300 <= err <= 399 {
      return None, err;
    }
    if pos[3] != '-' || StrtolEnd(pos) != pos[3..] {
      return None, -3;
    }
    var posEnd := Find(pos[4..], "\r\n");
    if posEnd.None? {
      return None, -4;
    }
    return Some(pos[4..4 + posEnd.value]), 0;
  }

  // ---- messages with parameters

  /** A message of several lines: a number, parameters one a line, and a closing text. */
  function Message(code: string, params: seq<string>, text: string): string
  {
    if params == [] then code + " " + text + "\r\n"
    else code + "-" + params[0] + "\r\n" + Message(code, params[1..], text)
  }

  predicate IsCode(code: string)
  {
    |code| == 3 && IsDigit(code[0]) && IsDigit(code[1]) && IsDigit(code[2])
  }

  ghost predicate NoLf(params: seq<string>)
  {
    forall p | p in params :: '\n' !in p
  }

  /** A line, cut off a text. */
  lemma LineRead(l: string, x: string, str: string)
    requires '\n' !in l
    ensures ReadReply(l + "\n" + x, str) ==
            if |l| < 3 || (|l| > 3 && l[3] == ' ') then Some((str + (l + "\n"), x))
            else ReadReply(x, str + (l + "\n"))
  {
    hide OutputFraming.GetLine;
    OutputFraming.GetLineCons(l, x);
    Assoc(l, "\n", x);
  }

  /** A message is read as one piece, up to its end, whatever follows. */
  lemma {:induction false} MessageIsRead(code: string, params: seq<string>, text: string, rest: string, str: string)
    requires IsCode(code) && NoLf(params) && '\n' !in text
    ensures ReadReply(Message(code, params, text) + rest, str) == Some((str + Message(code, params, text), rest))
    decreases params
  {
    hide ReadReply;
    var m := Message(code, params, text);
    if params == [] {
      var l := code + " " + text + "\r";
      assert m == l + "\n";
      CodeHasNoLf(code);
      LineRead(l, rest, str);
    } else {
      var l, tail := code + "-" + params[0] + "\r", Message(code, params[1..], text);
      assert params[0] in params && forall p | p in params[1..] :: p in params;
      CodeHasNoLf(code);
      assert m == (l + "\n") + tail && m + rest == l + "\n" + (tail + rest);
      LineRead(l, tail + rest, str);
      MessageIsRead(code, params[1..], text, rest, str + (l + "\n"));
      Assoc(str, l + "\n", tail);
    }
  }

  lemma CodeHasNoLf(code: string)
    requires IsCode(code)
    ensures '\n' !in code
  {
    assert code == [code[0], code[1], code[2]];
  }

  /** The first end of a line is where the line ends. */
  lemma {:induction false} LineEnds(l: string, x: string)
    requires '\n' !in l
    ensures AfterFirst(l + ("\r\n" + x), "\r\n") == Some(x)
    ensures Find(l + ("\r\n" + x), "\r\n") == Some(|l|)
  {
    var s := l + ("\r\n" + x);
    if l == "" {
      assert s == "\r\n" + x && s[2..] == x;
    } else {
      assert s[0] == l[0] && s[1..] == l[1..] + ("\r\n" + x);
      assert s[1] == if |l| > 1 then l[1] else '\r';
      LineEnds(l[1..], x);
    }
  }

  lemma {:induction false} SkipTo(code: string, params: seq<string>, text: string, n: nat)
    requires IsCode(code) && NoLf(params) && n <= |params|
    ensures SkipLines(Message(code, params, text), n) == Some(Message(code, params[n..], text))
  {
    hide AfterFirst;
    if n == 0 {
      assert params[0..] == params;
    } else {
      var l, tail := code + "-" + params[0], Message(code, params[1..], text);
      assert params[0] in params && forall p | p in params[1..] :: p in params;
      CodeHasNoLf(code);
      assert Message(code, params, text) == l + ("\r\n" + tail);
      LineEnds(l, tail);
      SkipTo(code, params[1..], text, n - 1);
      assert params[1..][n - 1..] == params[n..];
    }
  }

  lemma DigitStep(c: char, x: string, acc: nat)
    requires IsDigit(c)
    ensures DigitsValue([c] + x, acc) == DigitsValue(x, acc * 10 + (c as int - '0' as int))
    ensures SkipDigits([c] + x) == SkipDigits(x)
  {
    assert ([c] + x)[1..] == x;
  }

  lemma ThreeDigits(code: string, x: string)
    requires IsCode(code)
    ensures DigitsValue(code + x, 0) ==
            DigitsValue(x, (code[0] as int - '0' as int) * 100 + (code[1] as int - '0' as int) * 10
                        + (code[2] as int - '0' as int))
    ensures SkipDigits(code + x) == SkipDigits(x)
  {
    hide DigitsValue, SkipDigits;
    var c := [code[2]] + x;
    var b := [code[1]] + c;
    assert code + x == [code[0]] + b;
    DigitStep(code[0], b, 0);
    DigitStep(code[1], c, code[0] as int - '0' as int);
    DigitStep(code[2], x, (code[0] as int - '0' as int) * 10 + (code[1] as int - '0' as int));
  }

  lemma CodeNumber(code: string, x: string)
    requires IsCode(code) && (x == "" || !IsDigit(x[0]))
    ensures StrtolEnd(code + x) == x && StrtolValue(code + x) == DigitsValue(code, 0)
  {
    var s := code + x;
    assert s[0] == code[0];
    ThreeDigits(code, x);
    ThreeDigits(code, "");
    assert code + "" == code;
  }

  lemma LineSlices(code: string, x: string)
    requires |code| == 3
    ensures var pos := code + ("-" + x); |pos| >= 4 && pos[3..] == "-" + x && pos[4..] == x && pos[3] == '-'
  {}

  lemma ParamOfLine(code: string, p: string, tail: string, err: int)
    requires IsCode(code) && '\n' !in p && !(300 <= DigitsValue(code, 0) <= 399)
    ensures ParamOf(code + ("-" + (p + ("\r\n" + tail))), err) == (Some(p), 0)
  {
    hide StrtolEnd, StrtolValue, Find, DigitsValue;
    var x := p + ("\r\n" + tail);
    var pos := code + ("-" + x);
    CodeNumber(code, "-" + x);
    LineEnds(p, tail);
    LineSlices(code, x);
    assert x[..|p|] == p && pos[4..4 + |p|] == pos[4..][..|p|];
  }

  lemma ParamOfClosing(code: string, text: string, err: int)
    requires IsCode(code) && !(300 <= DigitsValue(code, 0) <= 399)
    ensures ParamOf(code + (" " + text), err) == (None, -3)
  {
    hide StrtolEnd, StrtolValue, Find, DigitsValue;
    CodeNumber(code, " " + text);
    assert (code + (" " + text))[3] == ' ';
  }

  /** Every parameter is found under its number; the closing line is not one. */
  lemma ParamIs(code: string, params: seq<string>, text: string, num: int, err: int)
    requires IsCode(code) && NoLf(params) && 1 <= num <= |params| + 1
    requires !(300 <= DigitsValue(code, 0) <= 399)
    ensures GetParamStr(Message(code, params, text), num, err) ==
            if num <= |params| then (Some(params[num - 1]), 0) else (None, -3)
  {
    hide SkipLines, ParamOf, DigitsValue;
    SkipTo(code, params, text, num - 1);
    var pos := Message(code, params[num - 1..], text);
    if num <= |params| {
      var p, tail := params[num - 1], Message(code, params[num..], text);
      assert params[num - 1..][0] == p && params[num - 1..][1..] == params[num..] && p in params;
      assert pos == code + ("-" + (p + ("\r\n" + tail)));
      ParamOfLine(code, p, tail, err);
    } else {
      assert pos == code + (" " + (text + "\r\n"));
      ParamOfClosing(code, text + "\r\n", err);
    }
  }

  // ---- parameters that are not there

  lemma {:induction false} SkipAll(code: string, params: seq<string>, text: string, n: nat)
    requires IsCode(code) && NoLf(params) && '\n' !in text && n > |params|
    ensures SkipLines(Message(code, params, text), n) == if n == |params| + 1 then Some("") else None
    decreases n
  {
    hide AfterFirst, Message, IsCode;
    CodeHasNoLf(code);
    MessageLine(code, params, text);
    if params == [] {
      LineEnds(code + " " + text, "");
      NothingToSkip(n - 1);
    } else {
      assert params[0] in params && forall p | p in params[1..] :: p in params;
      LineEnds(code + "-" + params[0], Message(code, params[1..], text));
      SkipAll(code, params[1..], text, n - 1);
    }
  }

  lemma MessageLine(code: string, params: seq<string>, text: string)
    ensures Message(code, params, text) ==
            if params == [] then code + " " + text + ("\r\n" + "")
            else code + "-" + params[0] + ("\r\n" + Message(code, params[1..], text))
  {
    if params == [] {
      assert code + " " + text + "\r\n" == code + " " + text + ("\r\n" + "");
    } else {
      Assoc(code + "-" + params[0], "\r\n", Message(code, params[1..], text));
    }
  }

  lemma NothingToSkip(n: nat)
    ensures SkipLines("", n) == if n == 0 then Some("") else None
  {}

  /** No parameter has a number below 1, or beyond the closing line; right behind that the
      error is left as it was. */
  lemma ParamBeyond(code: string, params: seq<string>, text: string, num: int, err: int)
    requires IsCode(code) && NoLf(params) && '\n' !in text && (num < 1 || num > |params| + 1)
    ensures GetParamStr(Message(code, params, text), num, err) ==
            (None, if num < 1 then -1 else if num == |params| + 2 then err else -2)
  {
    hide SkipLines, ParamOf, Message;
    if num > |params| + 1 {
      SkipAll(code, params, text, num - 1);
      assert ParamOf("", err) == (None, err) by { EmptyParam(err); }
    }
  }

  lemma EmptyParam(err: int)
    ensures ParamOf("", err) == (None, err)
  {}

  /** A reply with a number from 300 to 399 has no parameters; the number is the error. */
  lemma ErrorReply(code: string, x: string, num: int, err: int)
    requires IsCode(code) && 300 <= DigitsValue(code, 0) <= 399 && x != "" && !IsDigit(x[0])
    ensures GetParamStr(code + x, 1, err) == (None, DigitsValue(code, 0))
  {
    hide StrtolEnd, StrtolValue, Find, DigitsValue;
    CodeNumber(code, x);
  }

  /** A parameter whose line does not end is none. */
  lemma ParamUnended(code: string, p: string, err: int)
    requires IsCode(code) && !(300 <= DigitsValue(code, 0) <= 399) && Find(p, "\r\n") == None
    ensures GetParamStr(code + ("-" + p), 1, err) == (None, -4)
  {
    hide StrtolEnd, StrtolValue, Find, DigitsValue;
    CodeNumber(code, "-" + p);
    LineSlices(code, p);
  }

  /** Where strtol stops. */
  lemma {:induction false} StrtolEndIs(blanks: string, sign: string, digits: string, rest: string)
    requires forall i | 0 <= i < |blanks| :: blanks[i] in BLANKS
    requires sign == "" || sign == "+" || sign == "-"
    requires (forall i | 0 <= i < |digits| :: '0' <= digits[i] <= '9') && (rest != "" ==> !('0' <= rest[0] <= '9'))
    requires sign == digits == "" ==> rest == "" || rest[0] !in BLANKS + {'+', '-'}
    ensures var s := blanks + sign + digits + rest; StrtolEnd(s) == if digits == "" then s else rest
    decreases blanks
  {
    hide Strtol, StrtolEnd;
    var s := blanks + sign + digits + rest;
    if blanks == "" {
      assert s == sign + (digits + rest);
      SignedEnd(sign, digits, rest);
    } else {
      var t := blanks[1..] + sign + digits + rest;
      assert s == [blanks[0]] + t;
      BlankEnd(blanks[0], t);
      StrtolIs(blanks[1..], sign, digits, rest);
      StrtolEndIs(blanks[1..], sign, digits, rest);
    }
  }

  lemma BlankEnd(c: char, t: string)
    requires c in BLANKS
    ensures StrtolEnd([c] + t) == if Strtol(t).None? then [c] + t else StrtolEnd(t)
  {
    hide Strtol;
    assert ([c] + t)[1..] == t;
  }

  lemma BodyEnd(sign: string, x: string)
    requires sign == "" || sign == "+" || sign == "-"
    requires sign == "" ==> x == "" || x[0] !in BLANKS + {'+', '-'}
    ensures StrtolEnd(sign + x) == if x == "" || !IsDigit(x[0]) then sign + x else SkipDigits(x)
  {
    hide SkipDigits, Strtol;
    var s := sign + x;
    if sign == "" {
      assert s == x;
    } else {
      assert s[0] == sign[0] && s[1..] == x;
    }
  }

  lemma SignedEnd(sign: string, digits: string, rest: string)
    requires sign == "" || sign == "+" || sign == "-"
    requires (forall i | 0 <= i < |digits| :: '0' <= digits[i] <= '9') && (rest != "" ==> !('0' <= rest[0] <= '9'))
    requires sign == digits == "" ==> rest == "" || rest[0] !in BLANKS + {'+', '-'}
    ensures var s := sign + (digits + rest); StrtolEnd(s) == if digits == "" then s else rest
  {
    hide StrtolEnd, SkipDigits;
    var x := digits + rest;
    SkipDigitsIs(digits, rest);
    assert digits != "" ==> x[0] == digits[0];
    assert digits == "" ==> x == rest;
    BodyEnd(sign, x);
  }

  lemma {:induction false} SkipDigitsIs(digits: string, rest: string)
    requires (forall i | 0 <= i < |digits| :: '0' <= digits[i] <= '9') && (rest != "" ==> !('0' <= rest[0] <= '9'))
    ensures SkipDigits(digits + rest) == rest
  {
    if digits == "" {
      assert digits + rest == rest;
    } else {
      assert (digits + rest)[0] == digits[0] && (digits + rest)[1..] == digits[1..] + rest;
      SkipDigitsIs(digits[1..], rest);
    }
  }

  /** A parameter is read as a number exactly if nothing follows its digits; the empty one is
      read as 0. */
  lemma NumberParam(reply: string, num: int, err: int, blanks: string, sign: string, digits: string, rest: string)
    requires forall i | 0 <= i < |blanks| :: blanks[i] in BLANKS
    requires sign == "" || sign == "+" || sign == "-"
    requires (forall i | 0 <= i < |digits| :: '0' <= digits[i] <= '9') && (rest != "" ==> !('0' <= rest[0] <= '9'))
    requires sign == digits == "" ==> rest == "" || rest[0] !in BLANKS + {'+', '-'}
    requires GetParamStr(reply, num, err).0 == Some(blanks + sign + digits + rest)
    ensures var p, e := blanks + sign + digits + rest, GetParamStr(reply, num, err).1;
            var value: int := DigitsValue(digits, 0);
            GetParamInt(reply, num, err) ==
            if p == "" then (0, e)
            else if digits == "" || rest != "" then (0, -3)
            else (if sign == "-" then -value else value, e)
  {
    hide Strtol, StrtolEnd, GetParamStr, DigitsValue;
    StrtolIs(blanks, sign, digits, rest);
    StrtolEndIs(blanks, sign, digits, rest);
    if blanks + sign + digits + rest == "" {
      assert digits == "" && rest == "";
    }
  }

  // ---- from the module to the server

  /** What module_report_index_mark writes. */
  function ModuleReport(mark: string): string
  {
    "700-" + mark + "\n" + "700 INDEX MARK\n"
  }

  /** output_module_is_speaking, for a reply that begins with 7: the mark. */
  function EventMark(response: string): Option<string>
  {
    if |response| < 4 then None
    else if "701" <= response then Some("__spd_begin")
    else if "702" <= response then Some("__spd_end")
    else if "703" <= response then Some("__spd_stopped")
    else if "704" <= response then Some("__spd_paused")
    else if "700" <= response then
      match Find(response, "\n")
      case None => None
      case Some(p) => if p < 4 then None else Some(response[4..p])
    else None
  }

  /** The server gets the mark that the module reports, and no byte of what follows,
      exactly if the mark has no line feed. */
  lemma MarkReachesServer(mark: string, rest: string)
    ensures var read := ReadReply(ModuleReport(mark) + rest, "");
            '\n' !in mark <==> read.Some? && EventMark(read.value.0) == Some(mark) && read.value.1 == rest
  {
    hide ReadReply, Find;
    if '\n' !in mark {
      var l, tail := "700-" + mark, "700 INDEX MARK\n";
      var read := ModuleReport(mark) + rest;
      assert read == l + "\n" + (tail + rest);
      LineRead(l, tail + rest, "");
      assert tail == "700 INDEX MARK" + "\n" && tail + rest == "700 INDEX MARK" + "\n" + rest;
      LineRead("700 INDEX MARK", rest, "" + (l + "\n"));
      var response := "" + (l + "\n") + ("700 INDEX MARK" + "\n");
      assert response == l + ("\n" + tail);
      OutputFraming.FindLf(l, tail);
      MarkAt(response, mark);
    } else {
      var read := ReadReply(ModuleReport(mark) + rest, "");
      if read.Some? {
        MarksHaveNoLf(read.value.0);
      }
    }
  }

  /** What the module writes of its state, and the mark that the server takes it for. */
  ghost predicate StateLine(line: string, mark: string)
  {
    (line == "701 BEGIN" && mark == "__spd_begin") || (line == "702 END" && mark == "__spd_end")
    || (line == "703 STOP" && mark == "__spd_stopped") || (line == "704 PAUSE" && mark == "__spd_paused")
  }

  /** Each state that the module reports reaches the server as its mark, whatever follows. */
  lemma StateReachesServer(line: string, mark: string, rest: string)
    requires StateLine(line, mark)
    ensures ReadReply(line + "\n" + rest, "") == Some((line + "\n", rest)) && EventMark(line + "\n") == Some(mark)
  {
    hide ReadReply;
    LineRead(line, rest, "");
    assert "" + (line + "\n") == line + "\n";
    var r := line + "\n";
    assert r[0] == line[0] && r[1] == line[1] && r[2] == line[2];
  }

  lemma MarkAt(response: string, mark: string)
    requires "700-" + mark <= response && Find(response, "\n") == Some(4 + |mark|)
    ensures EventMark(response) == Some(mark)
  {
    hide Find;
    assert response[0] == '7' && response[1] == '0' && response[2] == '0';
    assert response[..4 + |mark|] == "700-" + mark;
    assert response[4..4 + |mark|] == mark;
  }

  lemma MarksHaveNoLf(response: string)
    ensures EventMark(response).Some? ==> '\n' !in EventMark(response).value
  {
    hide Find;
    FindIsFirst(response, "\n");
    var f := Find(response, "\n");
    if f.Some? {
      forall i | 0 <= i < f.value ensures response[i] != '\n' {
        assert !("\n" <= response[i..]) && response[i..][0] == response[i];
      }
    }
  }

  // ---- from the server to the client

  /** What report_index_mark writes to the client's socket. */
  function ReportIndexMark(id: int, uid: int, mark: string): string
  {
    Message("700", [PrintInt(id), PrintInt(uid), mark], "INDEX MARK")
  }

  /** What report_begin and its like write. */
  function ReportState(code: string, id: int, uid: int, text: string): string
  {
    Message(code, [PrintInt(id), PrintInt(uid)], text)
  }

  datatype Callback =
    | IndexMark(msgId: int, clientId: int, mark: string)
    | StateEvent(code: int, msgId: int, clientId: int)
    | NoCallback
    | BadReply

  /** The number of a reply (get_err_code): its first three bytes, or fewer if it ends. */
  function ErrCode(reply: string): int
  {
    var code := if |reply| < 3 then reply else reply[..3];
    if code != "" && OnlyDigits(code) then DigitsValue(code, 0) else -1
  }

  predicate OnlyDigits(s: string)
  {
    forall i | 0 <= i < |s| :: IsDigit(s[i])
  }

  /** The number of a reply is its first three digits; it is an event's if the first is a 7.
      If one of the first three bytes is no digit, there is none. */
  lemma ErrCodeIs(reply: string)
    requires |reply| >= 3
    ensures IsCode(reply[..3]) ==>
              ErrCode(reply) == DigitsValue(reply[..3], 0)
              && (reply[0] == '7' <==> Handshake.IsEvent(Handshake.Message(ErrCode(reply), reply)))
    ensures !IsCode(reply[..3]) ==> ErrCode(reply) == -1
  {
    hide DigitsValue;
    var code := reply[..3];
    if IsCode(code) {
      ThreeDigits(code, "");
      assert code + "" == code;
      var tens := (code[0] as int - '0' as int) * 100 + (code[1] as int - '0' as int) * 10;
      NoDigits(tens + (code[2] as int - '0' as int));
    } else {
      assert !IsDigit(code[0]) || !IsDigit(code[1]) || !IsDigit(code[2]);
    }
  }

  lemma NoDigits(acc: nat)
    ensures DigitsValue("", acc) == acc
  {}

  lemma {:induction false} AllDigits(s: string)
    requires forall c | c in s :: IsDigit(c)
    ensures SkipDigits(s) == ""
  {
    if s == "" {
    } else {
      assert s[0] in s;
      AllDigits(s[1..]);
    }
  }

  lemma PrintedEnds(n: int)
    ensures StrtolEnd(PrintInt(n)) == "" && StrtolValue(PrintInt(n)) == n
  {
    hide Strtol, DigitsValue;
    PrintReadRoundTrip(n);
    var d := if n < 0 then Digits(-n) else Digits(n);
    AllDigits(d);
    assert d[0] in d;
    assert n < 0 ==> PrintInt(n) == "-" + d && PrintInt(n)[1..] == d;
  }

  lemma IntParam(code: string, params: seq<string>, text: string, num: int, err: int, n: int)
    requires IsCode(code) && NoLf(params) && 1 <= num <= |params| && params[num - 1] == PrintInt(n)
    requires !(300 <= DigitsValue(code, 0) <= 399)
    ensures GetParamInt(Message(code, params, text), num, err) == (n, 0)
  {
    hide StrtolEnd, StrtolValue, PrintInt, GetParamStr, Message, DigitsValue, NoLf;
    ParamIs(code, params, text, num, err);
    PrintedEnds(n);
  }

  lemma CodeOf(code: string, params: seq<string>, text: string)
    requires IsCode(code)
    ensures ErrCode(Message(code, params, text)) == DigitsValue(code, 0)
  {
    hide DigitsValue;
    assert Message(code, params, text)[..3] == code;
    assert code == [code[0], code[1], code[2]];
  }

  lemma Code700()
    ensures IsCode("700") && DigitsValue("700", 0) == 700
  {
    assert "700"[1..] == "00" && "00"[1..] == "0" && "0"[1..] == "";
    assert DigitsValue("700", 0) == DigitsValue("00", 7) == DigitsValue("0", 70) == DigitsValue("", 700) == 700;
  }

  lemma IdsHaveNoLf(id: int, uid: int)
    ensures NoLf([PrintInt(id), PrintInt(uid)])
  {
    hide PrintInt;
    PrintIntNonEmpty(id);
    PrintIntNonEmpty(uid);
  }

  /** The report of a mark is read as one message, whatever follows it, and its parameters
      are the two ids and the mark. */
  lemma MarkReport(id: int, uid: int, mark: string, rest: string)
    requires '\n' !in mark
    ensures var report := ReportIndexMark(id, uid, mark);
            ReadReply(report + rest, "") == Some((report, rest)) && ErrCode(report) == 700
            && GetParamInt(report, 1, 0) == (id, 0) && GetParamInt(report, 2, 0) == (uid, 0)
            && GetParamStr(report, 3, 0) == (Some(mark), 0)
  {
    hide ReadReply, PrintInt, GetParamStr, GetParamInt, Message, DigitsValue, ErrCode;
    var params := [PrintInt(id), PrintInt(uid), mark];
    IdsHaveNoLf(id, uid);
    assert forall p | p in params :: p in [PrintInt(id), PrintInt(uid)] || p == mark;
    Code700();
    MessageIsRead("700", params, "INDEX MARK", rest, "");
    assert "" + Message("700", params, "INDEX MARK") == Message("700", params, "INDEX MARK");
    CodeOf("700", params, "INDEX MARK");
    IntParam("700", params, "INDEX MARK", 1, 0, id);
    IntParam("700", params, "INDEX MARK", 2, 0, uid);
    ParamIs("700", params, "INDEX MARK", 3, 0);
  }

  /** So are the reports of a begin, an end, a pause, a resume and a cancellation. */
  lemma StateReport(code: string, id: int, uid: int, text: string, rest: string)
    requires IsCode(code) && 701 <= DigitsValue(code, 0) <= 705 && '\n' !in text
    ensures var report := ReportState(code, id, uid, text);
            ReadReply(report + rest, "") == Some((report, rest)) && ErrCode(report) == DigitsValue(code, 0)
            && GetParamInt(report, 1, 0) == (id, 0) && GetParamInt(report, 2, 0) == (uid, 0)
  {
    hide ReadReply, PrintInt, GetParamStr, GetParamInt, Message, DigitsValue, ErrCode;
    var params := [PrintInt(id), PrintInt(uid)];
    IdsHaveNoLf(id, uid);
    MessageIsRead(code, params, text, rest, "");
    assert "" + Message(code, params, text) == Message(code, params, text);
    CodeOf(code, params, text);
    IntParam(code, params, text, 1, 0, id);
    IntParam(code, params, text, 2, 0, uid);
  }

  /** A report that the server makes, with the callback that is due for it. */
  ghost predicate Reports(reply: string, c: Callback)
  {
    match c
    case IndexMark(id, uid, mark) => '\n' !in mark && reply == ReportIndexMark(id, uid, mark)
    case StateEvent(code, id, uid) =>
      (exists num, text :: IsCode(num) && DigitsValue(num, 0) == code && 701 <= code <= 705 && '\n' !in text
                           && reply == ReportState(num, id, uid, text))
    case _ => false
  }

  /** The branch of spd_events_handler for numbers from 700 to 799, all callbacks being
      set: for every report of the server, just the callback that is due is made. */
  method HandleEvent(reply: string) returns (c: Callback)
    requires 700 <= ErrCode(reply) <= 799
    ensures forall due | Reports(reply, due) :: c == due
    ensures ErrCode(reply) > 705 ==> c.NoCallback? || c.BadReply?
  {
    hide ErrCode, GetParamStr, GetParamInt, StrtolEnd, StrtolValue, ReadReply, IsCode, DigitsValue, ReportIndexMark,
         ReportState;
    forall due | Reports(reply, due)
      ensures due.IndexMark? || due.StateEvent?
      ensures ErrCode(reply) == (if due.IndexMark? then 700 else due.code)
      ensures GetParamInt(reply, 1, 0) == (due.msgId, 0) && GetParamInt(reply, 2, 0) == (due.clientId, 0)
      ensures due.IndexMark? ==> GetParamStr(reply, 3, 0) == (Some(due.mark), 0)
      ensures due.StateEvent? ==> 701 <= due.code <= 705
    {
      DueReport(reply, due);
    }
    var code := ErrCode(reply);
    var msgId, err := ParamInt(reply, 1, 0);
    if err < 0 {
      return BadReply;
    }
    var clientId;
    clientId, err := ParamInt(reply, 2, err);
    if err < 0 {
      return BadReply;
    }
    if 701 <= code <= 705 {
      return StateEvent(code, msgId, clientId);
    }
    if code == 700 {
      var im, imErr := ParamStr(reply, 3, 0);
      if imErr < 0 || im.None? {
        return BadReply;
      }
      return IndexMark(msgId, clientId, im.value);
    }
    return NoCallback;
  }

  method ParamInt(reply: string, num: int, err0: int) returns (value: int, err: int)
    ensures (value, err) == GetParamInt(reply, num, err0)
  {
    hide StrtolEnd, StrtolValue, GetParamStr;
    var rep;
    rep, err := ParamStr(reply, num, err0);
    if rep.None? {
      return 0, err;
    }
    if StrtolEnd(rep.value) != "" {
      return 0, -3;
    }
    value := StrtolValue(rep.value);
  }

  lemma DueReport(reply: string, due: Callback)
    requires Reports(reply, due)
    ensures due.IndexMark? || due.StateEvent?
    ensures ErrCode(reply) == (if due.IndexMark? then 700 else due.code)
    ensures GetParamInt(reply, 1, 0) == (due.msgId, 0) && GetParamInt(reply, 2, 0) == (due.clientId, 0)
    ensures due.IndexMark? ==> GetParamStr(reply, 3, 0) == (Some(due.mark), 0)
    ensures due.StateEvent? ==> 701 <= due.code <= 705
  {
    hide ErrCode, GetParamStr, GetParamInt, ReadReply, IsCode, DigitsValue, ReportIndexMark, ReportState;
    if due.IndexMark? {
      MarkReport(due.msgId, due.clientId, due.mark, "");
    } else {
      var num, text :| IsCode(num) && DigitsValue(num, 0) == due.code && 701 <= due.code <= 705 && '\n' !in text
                       && reply == ReportState(num, due.msgId, due.clientId, text);
      StateReport(num, due.msgId, due.clientId, text, "");
    }
  }

  /** The client reads what the server reports and calls back: it gets the ids and the mark
      of the event, and the next message is read from where this one ends. */
  method MarkReachesClient(id: int, uid: int, mark: string, rest: string) returns (c: Callback, left: string)
    requires '\n' !in mark
    ensures c == IndexMark(id, uid, mark) && left == rest
  {
    hide ErrCode, ReadReply, ReportIndexMark, GetParamInt, GetParamStr;
    MarkReport(id, uid, mark, rest);
    var stream := new OutputFraming.ModuleInput(ReportIndexMark(id, uid, mark) + rest);
    var reply := GetReply(stream);
    assert Reports(reply.value, IndexMark(id, uid, mark));
    c := HandleEvent(reply.value);
    left := stream.stdin;
  }

  /** The same for a begin, an end, a pause, a resume and a cancellation. */
  method StateReachesClient(code: string, id: int, uid: int, text: string, rest: string)
    returns (c: Callback, left: string)
    requires IsCode(code) && 701 <= DigitsValue(code, 0) <= 705 && '\n' !in text
    ensures c == StateEvent(DigitsValue(code, 0), id, uid) && left == rest
  {
    hide ErrCode, ReadReply, ReportState, GetParamInt, GetParamStr, IsCode, DigitsValue;
    StateReport(code, id, uid, text, rest);
    var stream := new OutputFraming.ModuleInput(ReportState(code, id, uid, text) + rest);
    var reply := GetReply(stream);
    assert Reports(reply.value, StateEvent(DigitsValue(code, 0), id, uid));
    c := HandleEvent(reply.value);
    left := stream.stdin;
  }

  /** The id under which the server queued a message is the id that spd_say returns. */
  lemma QueuedIdReachesClient(id: int, rest: string, err: int)
    ensures var reply := Message("225", [PrintInt(id)], "OK MESSAGE QUEUED");
            ReadReply(reply + rest, "") == Some((reply, rest)) && GetParamInt(reply, 1, err) == (id, 0)
  {
    hide ReadReply, PrintInt, GetParamInt, Message, NoLf;
    PrintIntNonEmpty(id);
    assert NoLf([PrintInt(id)]) by { IdsHaveNoLf(id, id); OneOfTwo(PrintInt(id)); }
    Code225();
    MessageIsRead("225", [PrintInt(id)], "OK MESSAGE QUEUED", rest, "");
    assert "" + Message("225", [PrintInt(id)], "OK MESSAGE QUEUED") ==
           Message("225", [PrintInt(id)], "OK MESSAGE QUEUED");
    IntParam("225", [PrintInt(id)], "OK MESSAGE QUEUED", 1, err, id);
  }

  lemma OneOfTwo(p: string)
    ensures NoLf([p, p]) ==> NoLf([p])
  {
    assert NoLf([p, p]) ==> p in [p, p];
  }

  lemma Code225()
    ensures IsCode("225") && DigitsValue("225", 0) == 225
  {
    assert "225"[1..] == "25" && "25"[1..] == "5" && "5"[1..] == "";
    assert DigitsValue("225", 0) == DigitsValue("25", 2) == DigitsValue("5", 22) == DigitsValue("", 225) == 225;
  }
}
