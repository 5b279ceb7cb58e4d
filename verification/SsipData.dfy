/** The server's side of the SSIP data phase: the CRLF line reader of serve()
    (src/server/server.c), the data half of parse() and deescape_dot()
    (src/server/parse.c). */
module SsipData {
  import opened CStrings
  import Utf8
  import ClientText

  const BUF_SIZE := 128

  // ---- deescape_dot

  function UnstuffRest(s: string): string
  {
    if s == "" then ""
    else if "\r\n.." <= s then "\r\n." + UnstuffRest(s[4..])
    else [s[0]] + UnstuffRest(s[1..])
  }

  function Unstuff(s: string): string
  {
    if ".." <= s then "." + UnstuffRest(s[2..]) else UnstuffRest(s)
  }

  predicate CrlfDotDotAt(text: string, i: nat)
    requires i < |text|
    ensures CrlfDotDotAt(text, i) <==> "\r\n.." <= text[i..]
  {
    text[i] == '\r' && At(text, i + 1) == '\n' && At(text, i + 2) == '.' && At(text, i + 3) == '.'
  }

  /** deescape_dot looks up to three bytes past len; a byte there that could
      continue a match would make it overrun its buffer. */
  method DeescapeDot(text: string, len: nat) returns (out: string)
    requires len <= |text| && At(text, len) !in "\n."
    ensures out == Unstuff(text[..len])
    ensures |out| <= len
  {
    hide UnstuffRest, Unstuff;
    out := "";
    var i := 0;
    ghost var s := text[..len];
    UnstuffEnds(s);
    if len >= 2 && text[0] == '.' && text[1] == '.' {
      out, i := ".", 2;
    }
    while i < len
      invariant 0 <= i <= len && |out| <= i
      invariant Unstuff(s) == out + UnstuffRest(s[i..])
    {
      UnstuffStep(out, s, i);
      NoStraddle(text, len, i);
      if CrlfDotDotAt(text, i) {
        out, i := out + "\r\n.", i + 4;
      } else {
        out, i := out + [text[i]], i + 1;
      }
    }
  }

  lemma UnstuffEnds(s: string)
    ensures UnstuffRest(s[|s|..]) == ""
    ensures Unstuff(s) ==
            if |s| >= 2 && s[0] == '.' && s[1] == '.' then "." + UnstuffRest(s[2..]) else UnstuffRest(s[0..])
  {
    assert s[0..] == s;
  }

  lemma UnstuffStep(out: string, s: string, i: nat)
    requires i < |s|
    ensures out + UnstuffRest(s[i..]) ==
            if "\r\n.." <= s[i..] then out + "\r\n." + UnstuffRest(s[i + 4..])
            else out + [s[i]] + UnstuffRest(s[i + 1..])
  {
    assert s[i..][1..] == s[i + 1..];
    if "\r\n.." <= s[i..] { assert s[i..][4..] == s[i + 4..]; }
  }

  /** A match never begins before len and ends after it. */
  lemma NoStraddle(text: string, len: nat, i: nat)
    requires i < len <= |text| && At(text, len) !in "\n."
    ensures "\r\n.." <= text[i..] <==> "\r\n.." <= text[..len][i..]
  {
    var t, s := text[i..], text[..len][i..];
    assert s == t[..|s|];
    assert |s| < |t| ==> t[|s|] == text[len];
  }

  lemma {:induction false} UnstuffRestStuffRest(s: string)
    ensures UnstuffRest(ClientText.StuffRest(s)) == s
  {
    var t := ClientText.StuffRest(s);
    if s == "" {
    } else if "\r\n." <= s {
      UnstuffRestStuffRest(s[3..]);
      assert t[4..] == ClientText.StuffRest(s[3..]);
      assert s == "\r\n." + s[3..];
    } else {
      UnstuffRestStuffRest(s[1..]);
      var u := ClientText.StuffRest(s[1..]);
      assert t == [s[0]] + u && t[1..] == u;
      ClientText.StuffRestDoublesDots(s[1..]);
      assert "\r\n.." <= t ==> "\n." <= u;
    }
  }

  /** De-escaping undoes the client's dot-stuffing, for every text. */
  lemma UnstuffStuff(s: string)
    ensures Unstuff(ClientText.Stuff(s)) == s
  {
    var t := ClientText.Stuff(s);
    if "." <= s {
      UnstuffRestStuffRest(s[1..]);
      assert t[2..] == ClientText.StuffRest(s[1..]);
      assert s == "." + s[1..];
    } else {
      UnstuffRestStuffRest(s);
      ClientText.StuffRestDoublesDots(s);
    }
  }

  lemma UnstuffCons(c: char, t: string)
    ensures UnstuffRest([c] + t) ==
            if c == '\r' && |t| >= 3 && t[0] == '\n' && t[1] == '.' && t[2] == '.' then "\r\n." + UnstuffRest(t[3..])
            else [c] + UnstuffRest(t)
    ensures UnstuffRest("") == ""
  {
    var s := [c] + t;
    assert s[0..] == s && s[1..] == t && (|t| >= 3 ==> s[4..] == t[3..]);
    assert CrlfDotDotAt(s, 0) <==> c == '\r' && |t| >= 3 && t[0] == '\n' && t[1] == '.' && t[2] == '.';
  }

  lemma UnstuffBreak(x: string)
    ensures UnstuffRest("\r\n" + x) == "\r\n" + Unstuff(x)
  {
    hide UnstuffRest, Unstuff;
    ClientText.Crlf(x);
    UnstuffCons('\r', ['\n'] + x);
    UnstuffCons('\n', x);
    UnstuffEnds(x);
    assert x[0..] == x;
    if |x| >= 2 && x[0] == '.' && x[1] == '.' {
      assert (['\n'] + x)[3..] == x[2..];
      Assoc("\r\n", ".", UnstuffRest(x[2..]));
      assert "\r\n" + "." == "\r\n.";
    } else {
      ClientText.Crlf(UnstuffRest(x));
    }
  }

  /** Within a line nothing changes. */
  lemma {:induction false} UnstuffRestLine(l: string, tail: string)
    requires ClientText.NoCrlf(l) && (tail != "" ==> tail[0] == '\r')
    ensures UnstuffRest(l + tail) == l + UnstuffRest(tail)
  {
    hide UnstuffRest;
    if l == "" {
      assert "" + tail == tail && "" + UnstuffRest(tail) == UnstuffRest(tail);
    } else {
      UnstuffRestLine(l[1..], tail);
      UnstuffCons(l[0], l[1..] + tail);
      assert l == [l[0]] + l[1..] && l + tail == [l[0]] + (l[1..] + tail);
      assert l[1..] + tail != "" ==> (l[1..] + tail)[0] == if |l| > 1 then l[1] else '\r';
      Assoc([l[0]], l[1..], UnstuffRest(tail));
    }
  }

  /** A line that begins with two dots loses one. */
  function DotDropped(l: string): string
  {
    if |l| >= 2 && l[0] == '.' && l[1] == '.' then l[1..] else l
  }

  function AllDropped(ls: seq<string>): (r: seq<string>)
    ensures |r| == |ls|
  {
    seq(|ls|, i requires 0 <= i < |ls| => DotDropped(ls[i]))
  }

  lemma UnstuffLine(l: string, tail: string)
    requires ClientText.NoCrlf(l) && (tail != "" ==> tail[0] == '\r')
    ensures Unstuff(l + tail) == DotDropped(l) + UnstuffRest(tail)
  {
    hide UnstuffRest, ClientText.NoCrlf, Unstuff;
    UnstuffRestLine(l, tail);
    UnstuffEnds(l + tail);
    assert (l + tail)[0..] == l + tail;
    if |l| >= 2 && l[0] == '.' && l[1] == '.' {
      ClientText.NoCrlfBehind(l);
      ClientText.NoCrlfBehind(l[1..]);
      assert l[1..][1..] == l[2..];
      UnstuffRestLine(l[2..], tail);
      assert (l + tail)[2..] == l[2..] + tail && "." + l[2..] == l[1..];
      Assoc(".", l[2..], UnstuffRest(tail));
    } else {
      assert |l| < 2 && tail != "" ==> (l + tail)[|l|] == '\r';
    }
  }

  /** De-escaping takes a dot from exactly those lines that begin with two. */
  lemma {:induction false} UnstuffOnLines(ls: seq<string>)
    requires ClientText.CrlfFree(ls)
    ensures Unstuff(ClientText.Joined(ls)) == ClientText.Joined(AllDropped(ls))
    decreases |ls|
  {
    hide UnstuffRest, ClientText.NoCrlf, Unstuff, DotDropped;
    if |ls| == 1 {
      UnstuffLine(ls[0], "");
      UnstuffCons('x', "");
      assert ls[0] + "" == ls[0] && DotDropped(ls[0]) + "" == DotDropped(ls[0]);
    } else {
      UnstuffLine(ls[0], "\r\n" + ClientText.Joined(ls[1..]));
      UnstuffBreak(ClientText.Joined(ls[1..]));
      UnstuffOnLines(ls[1..]);
      assert AllDropped(ls)[1..] == AllDropped(ls[1..]);
    }
  }

  // ---- serve: one line up to CRLF

  /** NUL bytes are read as question marks. */
  function CleanByte(c: char): char { if c == '\0' then '?' else c }

  function Clean(s: string): (t: string)
    ensures |t| == |s| && forall i | 0 <= i < |s| :: t[i] == CleanByte(s[i])
  {
    seq(|s|, i requires 0 <= i < |s| => CleanByte(s[i]))
  }

  /** The next CRLF-terminated line of the input and what follows it. */
  function NextLine(input: string): Option<(string, string)>
  {
    match Find(input, "\r\n")
    case None => None
    case Some(k) => Some((Clean(input[..k + 2]), input[k + 2..]))
  }

  /** The reading loop of serve(): one byte at a time into a buffer that doubles
      when it is full, until CRLF; None when the peer is gone first. */
  method ReadLine(input: string) returns (line: Option<string>)
    ensures line == match NextLine(input) case None => None case Some(p) => Some(p.0)
  {
    var buf := new char[BUF_SIZE + 1];
    var buflen := BUF_SIZE;
    var bytes := 0;
    while bytes < |input|
      invariant 0 <= bytes <= |input| && bytes < buflen && buf.Length == buflen + 1
      invariant fresh(buf)
      invariant forall i | 0 <= i < bytes :: buf[i] == CleanByte(input[i])
      invariant forall i | 0 <= i && i + 1 < bytes :: !("\r\n" <= input[i..])
    {
      buf[bytes] := input[bytes];
      if buf[bytes] == '\n' && bytes >= 1 && buf[bytes - 1] == '\r' {
        FirstLineEnd(input, bytes - 1);
        assert buf[..bytes + 1] == Clean(input[..bytes + 1]);
        return Some(buf[..bytes + 1]);
      }
      if buf[bytes] == '\0' {
        buf[bytes] := '?';
      }
      bytes := bytes + 1;
      if bytes == buflen {
        buflen := buflen * 2;
        var bigger := new char[buflen + 1];
        for k := 0 to bytes
          invariant forall i | 0 <= i < bytes :: buf[i] == CleanByte(input[i])
          invariant forall i | 0 <= i < k :: bigger[i] == buf[i]
        {
          bigger[k] := buf[k];
        }
        buf := bigger;
      }
    }
    FindIsFirst(input, "\r\n");
    return None;
  }

  lemma FirstLineEnd(input: string, k: nat)
    requires k + 2 <= |input| && input[k] == '\r' && input[k + 1] == '\n'
    requires forall i | 0 <= i < k :: !("\r\n" <= input[i..])
    ensures Find(input, "\r\n") == Some(k)
  {
    FindIs(input, "\r\n", k);
  }

  /** A line ends with the first CRLF, and has a question mark for each NUL. */
  lemma NextLineIs(input: string, k: nat)
    requires k + 2 <= |input| && input[k] == '\r' && input[k + 1] == '\n'
    requires forall i | 0 <= i < k :: !(input[i] == '\r' && input[i + 1] == '\n')
    ensures NextLine(input).Some?
    ensures var (line, rest) := NextLine(input).value;
            |line| == k + 2 && rest == input[k + 2..]
            && forall i | 0 <= i < k + 2 :: line[i] == if input[i] == '\0' then '?' else input[i]
  {
    forall i | 0 <= i < k ensures !("\r\n" <= input[i..]) {
      assert input[i..][0] == input[i] && input[i..][1] == input[i + 1];
    }
    FirstLineEnd(input, k);
  }

  // ---- parse in data mode

  predicate EndsInCrlf(s: string)
  {
    |s| >= 2 && s[|s| - 2] == '\r' && s[|s| - 1] == '\n'
  }

  datatype Reply = More | Canceled | InvalidEncoding | Queued(text: string) | PeerGone

  /** The end of the data phase: the first n accumulated bytes are the message. */
  function Finish(data: string, n: nat): (r: Reply)
    requires n <= |data|
    ensures !r.More?
  {
    if n == 0 then Canceled
    else if !Utf8.Valid(data[..n]) then InvalidEncoding
    else Queued(Unstuff(data[..n]))
  }

  const TERMINATOR := "\r\n.\r\n"

  /** One line in data mode: the reply, and the data accumulated when it is More. */
  function DataLine(data: string, line: string): (Reply, string)
  {
    if line == TERMINATOR then (Finish(data, |data|), "")
    else if line == ".\r\n" then (Finish(data, if |data| > 2 then |data| - 2 else |data|), "")
    else match Find(line, TERMINATOR)
    case Some(k) => (Finish(data + line[..k], |data| + k), "")
    case None => (More, data + line)
  }

  /** The part of a connection's record that the data phase uses.  fd is what the
      peer has sent and the server has not read yet. */
  class Socket {
    var fd: string
    var awaitingData: bool
    var oBytes: nat
    var oBuf: string

    /** The lines accumulated so far are complete. */
    ghost predicate Valid()
      reads this
    {
      oBytes == |oBuf| && (oBuf == "" || EndsInCrlf(oBuf))
    }

    constructor (sent: string)
      ensures Valid() && fd == sent && oBuf == "" && !awaitingData
    {
      fd, awaitingData, oBytes, oBuf := sent, false, 0, "";
    }

    /** The SPEAK command. */
    method Speak()
      modifies this
      ensures Valid() && awaitingData && oBuf == "" && fd == old(fd)
    {
      awaitingData, oBytes, oBuf := true, 0, "";
    }

    /** server_data_off. */
    method DataOff()
      modifies this
      ensures oBytes == 0 && oBuf == "" && unchanged(`fd) && unchanged(`awaitingData)
    {
      oBytes, oBuf := 0, "";
    }

    /** The enddata part of parse(): bytes is the length of the line read last. */
    method EndData(bytes: nat) returns (reply: Reply)
      requires oBytes == |oBuf|
      requires bytes == 3 && oBuf != "" ==> EndsInCrlf(oBuf)
      modifies this
      ensures Valid() && !awaitingData && oBuf == "" && unchanged(`fd)
      ensures reply == old(Finish(oBuf, if bytes == 3 && |oBuf| > 2 then |oBuf| - 2 else |oBuf|))
    {
      awaitingData := false;
      if bytes == 3 && oBytes > 2 {
        oBytes := oBytes - 2;
      }
      if oBytes == 0 {
        DataOff();
        return Canceled;
      }
      if !Utf8.Valid(oBuf[..oBytes]) {
        DataOff();
        return InvalidEncoding;
      }
      var text := DeescapeDot(oBuf, oBytes);
      DataOff();
      return Queued(text);
    }

    /** parse() on one line of data; it relies on the line being complete. */
    method Parse(line: string) returns (reply: Reply)
      requires Valid() && awaitingData && EndsInCrlf(line)
      modifies this
      ensures Valid() && unchanged(`fd)
      ensures (reply, oBuf) == DataLine(old(oBuf), line)
      ensures awaitingData == reply.More?
    {
      hide Find, Finish;
      var bytes := |line|;
      if (bytes >= 5 && line == TERMINATOR) || (bytes == 3 && line == ".\r\n") {
        reply := EndData(bytes);
        return;
      }
      var realBytes, endData := bytes, false;
      if bytes >= 5 {
        var pos := Find(line, TERMINATOR);
        if pos.Some? {
          realBytes, endData := pos.value, true;
        }
      }
      oBytes, oBuf := oBytes + realBytes, oBuf + line[..realBytes];
      if endData {
        reply := EndData(bytes);
      } else {
        assert line[..realBytes] == line;
        reply := More;
      }
    }

    /** serve() called as long as the data phase lasts. */
    method ServeData() returns (reply: Reply)
      requires Valid() && awaitingData
      modifies this
      ensures Valid() && (reply, fd) == Receive(old(fd), old(oBuf))
      decreases |fd|
    {
      var line := ReadLine(fd);
      if line.None? {
        return PeerGone;
      }
      LineEndsInCrlf(fd);
      fd := fd[|line.value|..];
      reply := Parse(line.value);
      if reply.More? {
        reply := ServeData();
      }
    }
  }

  lemma LineEndsInCrlf(input: string)
    requires NextLine(input).Some?
    ensures var (line, rest) := NextLine(input).value;
            |line| <= |input| && EndsInCrlf(line) && rest == input[|line|..]
  {
    var k := Find(input, "\r\n").value;
    FindIsFirst(input, "\r\n");
    assert input[k..][0] == input[k] && input[k..][1] == input[k + 1];
  }

  /** The whole data phase on the bytes a client sends: the reply that ends it and
      the bytes left unread. */
  function Receive(input: string, data: string): (Reply, string)
    decreases |input|
  {
    match NextLine(input)
    case None => (PeerGone, input)
    case Some((line, rest)) =>
      LineEndsInCrlf(input);
      match DataLine(data, line)
      case (More, more) => Receive(rest, more)
      case (reply, _) => (reply, rest)
  }

  // ---- what the server accumulates for a dot-stuffed text

  /** No line of s is a lone dot: a dot that starts a line is doubled. */
  ghost predicate Transparent(s: string)
  {
    ("." <= s ==> ".." <= s) && ClientText.DotsDoubled(s)
  }

  lemma StuffIsTransparent(text: string)
    ensures Transparent(ClientText.Stuff(text))
    ensures forall c | c in ClientText.Stuff(text) :: c in text || c == '.'
  {
    StuffRestChars(if "." <= text then text[1..] else text);
    if "." <= text {
      ClientText.StuffRestDoublesDots(text[1..]);
      ClientText.PrefixKeepsDotsDoubled("..", ClientText.StuffRest(text[1..]));
    } else {
      ClientText.StuffRestDoublesDots(text);
    }
  }

  lemma {:induction false} StuffRestChars(s: string)
    ensures forall c | c in ClientText.StuffRest(s) :: c in s || c == '.'
  {
    if s == "" {
    } else if "\r\n." <= s {
      StuffRestChars(s[3..]);
      assert s == "\r\n." + s[3..];
    } else {
      StuffRestChars(s[1..]);
    }
  }

  lemma CleanText(s: string)
    requires '\0' !in s
    ensures Clean(s) == s
  {}

  /** The first line of x, when its first CRLF is at k. */
  lemma FirstLine(x: string, k: nat)
    requires k + 2 <= |x| && x[k] == '\r' && x[k + 1] == '\n' && '\0' !in x[..k + 2]
    requires forall i | 0 <= i < k :: !("\r\n" <= x[i..])
    ensures NextLine(x) == Some((x[..k + 2], x[k + 2..]))
  {
    FirstLineEnd(x, k);
    CleanText(x[..k + 2]);
  }

  /** A line with its only CRLF at its end is accumulated, unless it is a lone dot. */
  lemma PlainLine(data: string, line: string)
    requires EndsInCrlf(line) && line != ".\r\n"
    requires forall i | 0 <= i < |line| - 2 :: !("\r\n" <= line[i..])
    ensures DataLine(data, line) == (More, data + line)
  {
    forall i | 0 <= i <= |line| ensures !(TERMINATOR <= line[i..]) {
      assert i < |line| - 2 ==> !("\r\n" <= line[i..]);
    }
    assert line[0..] == line;
    FindIsFirst(line, TERMINATOR);
  }

  /** One step of Receive. */
  lemma ReceiveMore(input: string, line: string, rest: string, data: string)
    requires NextLine(input) == Some((line, rest)) && DataLine(data, line) == (More, data + line)
    ensures Receive(input, data) == Receive(rest, data + line)
  {}

  /** The first CRLF of s + end, where end starts with CRLF. */
  lemma FirstCrlf(s: string, end: string) returns (k: nat)
    requires "\r\n" <= end
    ensures k + 2 <= |s + end| && (s + end)[k] == '\r' && (s + end)[k + 1] == '\n'
    ensures forall i | 0 <= i < k :: !("\r\n" <= (s + end)[i..])
    ensures k == |s| || k + 2 <= |s|
  {
    var x := s + end;
    var f := Find(s, "\r\n");
    FindIsFirst(s, "\r\n");
    k := if f.Some? then f.value else |s|;
    assert f.Some? ==> s[k..][0] == s[k] && s[k..][1] == s[k + 1];
    forall i | 0 <= i < k ensures !("\r\n" <= x[i..]) {
      assert !("\r\n" <= s[i..]);
      assert x[i..] == s[i..] + end;
      assert x[i..][1] == if i + 1 < |s| then s[i..][1] else end[0];
    }
  }

  /** A first line of x that is not a lone dot is accumulated. */
  lemma AccumulateLine(x: string, k: nat, data: string)
    requires k + 2 <= |x| && x[k] == '\r' && x[k + 1] == '\n' && '\0' !in x[..k + 2]
    requires forall i | 0 <= i < k :: !("\r\n" <= x[i..])
    requires "." <= x ==> ".." <= x
    ensures Receive(x, data) == Receive(x[k + 2..], data + x[..k + 2])
  {
    var line := x[..k + 2];
    FirstLine(x, k);
    forall i | 0 <= i < |line| - 2 ensures !("\r\n" <= line[i..]) {
      assert line[i..] <= x[i..];
      assert !("\r\n" <= x[i..]);
    }
    hide Receive, DataLine, NextLine;
    PlainLine(data, line);
    ReceiveMore(x, line, x[k + 2..], data);
  }

  ghost function Ended(all: string, rest: string): (Reply, string)
  {
    (Finish(all, if |all| > 2 then |all| - 2 else |all|), rest)
  }

  lemma LastLine(rest: string, all: string)
    ensures Receive(".\r\n" + rest, all) == Ended(all, rest)
  {
    var y := ".\r\n" + rest;
    assert y[0..][0] == '.' && y[..3] == ".\r\n" && y[3..] == rest;
    FirstLine(y, 1);
  }

  /** The terminator is found exactly at the end of a transparent text, and what was
      accumulated loses the CRLF that the terminator brought. */
  lemma {:induction false} ReceiveTransparent(s: string, rest: string, data: string)
    requires Transparent(s) && '\0' !in s
    ensures Receive(s + (TERMINATOR + rest), data) == Ended(data + (s + "\r\n"), rest)
    decreases |s|
  {
    hide Receive, Ended, ClientText.DotsDoubled;
    var end := TERMINATOR + rest;
    var k := FirstCrlf(s, end);
    var x := s + end;
    assert x[..k + 2] == (s + "\r\n")[..k + 2];
    AccumulateLine(x, k, data);
    if k == |s| {
      assert x[k + 2..] == ".\r\n" + rest && x[..k + 2] == s + "\r\n";
      LastLine(rest, data + (s + "\r\n"));
    } else {
      var t := s[k + 2..];
      TransparentTail(s, k);
      assert x[k + 2..] == t + end && x[..k + 2] == s[..k + 2];
      ReceiveTransparent(t, rest, data + s[..k + 2]);
      Assoc(data, s[..k + 2], t + "\r\n");
      assert s[..k + 2] + (t + "\r\n") == s + "\r\n";
    }
  }

  lemma TransparentTail(s: string, k: nat)
    requires Transparent(s) && k + 2 <= |s| && s[k] == '\r' && s[k + 1] == '\n'
    ensures Transparent(s[k + 2..])
  {
    var t := s[k + 2..];
    assert s[k..] == "\r\n" + t;
    assert "." <= t ==> "\r\n." <= s[k..];
    assert "\r\n.." <= s[k..] ==> ".." <= s[k..][2..];
    assert s[k..][2..] == t;
    forall i | 0 <= i <= |t| && "\r\n." <= t[i..] ensures "\r\n.." <= t[i..] {
      assert t[i..] == s[k + 2 + i..];
    }
  }

  /** The terminator at once, without any text, cancels. */
  lemma EmptyDataCancels(rest: string)
    ensures Receive(".\r\n" + rest, "") == (Canceled, rest)
  {
    LastLine(rest, "");
  }

  /** When the peer is gone before a line ends, what is left is not data. */
  lemma UnendedLine(input: string, data: string)
    requires ClientText.NoCrlf(input)
    ensures Receive(input, data) == (PeerGone, input)
  {
    hide Find;
    NoCrlfFound(input);
  }

  lemma {:induction false} NoCrlfFound(s: string)
    requires ClientText.NoCrlf(s)
    ensures Find(s, "\r\n") == None
  {
    if s == "" {
    } else {
      NoCrlfFound(s[1..]);
      CrlfHere(s);
    }
  }

  lemma CrlfHere(s: string)
    ensures "\r\n" <= s <==> |s| >= 2 && s[0] == '\r' && s[1] == '\n'
  {}
}
