/** Cutting a message into parts for the synthesizer (module_get_message_part in
    src/modules/module_utils.c). */
module Chunking {
  import opened CStrings

  predicate IsDivider(c: char, dividers: Option<string>)
  {
    dividers.Some? && c in dividers.value
  }

  predicate IsSpace(c: char) { c == ' ' || c == '\n' || c == '\r' }

  /** A place to break the message after its byte at p: a divider before white space, or
      an empty line. */
  predicate BreakAt(message: string, p: nat, dividers: Option<string>)
    requires p < |message|
  {
    p + 1 < |message| && message[p + 1] in {' ', '\n', '\r'}
    && ((dividers.Some? && message[p] in dividers.value)
        || (message[p] == '\n' && message[p + 1] == '\n')
        || "\r\n\r\n" <= message[p..])
  }

  /** Whether the part that begins at start ends after byte p.  The tests of how much is
      left compare the length of the message with the index in the part. */
  predicate PartEndsAt(message: string, start: nat, p: nat, dividers: Option<string>)
    requires start <= p < |message|
  {
    var i := p - start;
    |message| - 1 - i > 2 && IsSpace(At(message, p + 1))
    && (IsDivider(message[p], dividers)
        || (message[p] == '\n' && At(message, p + 1) == '\n')
        || (|message| - 1 - i > 4 && "\r\n\r\n" <= message[p..]))
  }

  /** Where the part ends that begins at start and was taken up to p. */
  function PartEnd(message: string, start: nat, p: nat, maxlen: nat, dividers: Option<string>): (end: nat)
    requires start <= p <= |message| && p - start <= maxlen
    ensures p <= end <= |message| && end - start <= maxlen
    decreases |message| - p
  {
    if p - start == maxlen || p == |message| then p
    else if PartEndsAt(message, start, p, dividers) then p + 1
    else PartEnd(message, start, p + 1, maxlen, dividers)
  }

  /** module_get_message_part: part has room for maxlen bytes and a NUL; the C string left
      in it is the part. */
  method GetMessagePart(message: string, part: array<char>, start: nat, maxlen: nat, dividers: Option<string>)
    returns (ret: int, pos: nat)
    requires '\0' !in message && start <= |message| && 1 <= maxlen < part.Length
    modifies part
    ensures if start == |message| then ret == -1 && pos == start
            else pos == PartEnd(message, start, start, maxlen, dividers) && ret == pos - start
                 && part[..ret] == message[start..pos] && part[ret] == '\0'
  {
    hide PartEnd, PartEndsAt;
    pos := start;
    if At(message, pos) == '\0' {
      return -1, pos;
    }
    var numDividers := if dividers.Some? then |dividers.value| else 0;
    var i := 0;
    while i <= maxlen - 1
      invariant 0 <= i <= maxlen && start <= pos <= |message| && pos == start + i
      invariant part[..i] == message[start..pos]
      invariant PartEnd(message, start, pos, maxlen, dividers) == PartEnd(message, start, start, maxlen, dividers)
    {
      PartEndStep(message, start, pos, maxlen, dividers);
      part[i] := At(message, pos);
      if part[i] == '\0' {
        return i, pos;
      }
      assert message[start..pos + 1] == message[start..pos] + [message[pos]];
      assert part[..i + 1] == message[start..pos + 1];
      if |message| - 1 - i > 2 {
        if IsSpace(At(message, pos + 1)) {
          var found := FindDivider(part[i], dividers, numDividers);
          if found || (message[pos] == '\n' && At(message, pos + 1) == '\n') {
            part[i + 1] := '\0';
            pos := pos + 1;
            return i + 1, pos;
          }
          if |message| - 1 - i > 4 {
            if message[pos] == '\r' && At(message, pos + 1) == '\n' && At(message, pos + 2) == '\r'
              && At(message, pos + 3) == '\n' {
              part[i + 1] := '\0';
              pos := pos + 1;
              return i + 1, pos;
            }
          }
        }
      }
      pos := pos + 1;
      i := i + 1;
    }
    PartEndStep(message, start, pos, maxlen, dividers);
    part[i] := '\0';
    ret := i;
  }

  /** The loop over the dividers. */
  method FindDivider(c: char, dividers: Option<string>, numDividers: nat) returns (found: bool)
    requires numDividers == if dividers.Some? then |dividers.value| else 0
    ensures found == IsDivider(c, dividers)
  {
    var n := 0;
    while n < numDividers
      invariant n <= numDividers && (dividers.Some? ==> c !in dividers.value[..n])
    {
      if c == dividers.value[n] {
        return true;
      }
      n := n + 1;
    }
    assert dividers.Some? ==> dividers.value[..n] == dividers.value;
    return false;
  }

  lemma PartEndStep(message: string, start: nat, p: nat, maxlen: nat, dividers: Option<string>)
    requires '\0' !in message && start <= p <= |message| && p - start <= maxlen
    ensures PartEnd(message, start, p, maxlen, dividers) ==
            if p - start == maxlen || p == |message| then p
            else if PartEndsAt(message, start, p, dividers) then p + 1
            else PartEnd(message, start, p + 1, maxlen, dividers)
    ensures At(message, p) == '\0' <==> p == |message|
    ensures p < |message| ==>
              (PartEndsAt(message, start, p, dividers) <==>
               |message| - 1 - (p - start) > 2 && IsSpace(At(message, p + 1))
               && (IsDivider(message[p], dividers)
                   || (message[p] == '\n' && At(message, p + 1) == '\n')
                   || (|message| - 1 - (p - start) > 4 && EmptyLine(message, p))))
  {
    assert p < |message| ==> message[p] in message;
    if p < |message| {
      EmptyLineHere(message, p);
    }
  }

  /** What the last test reads: it stops at the end of the message. */
  predicate EmptyLine(message: string, p: nat)
    requires p < |message|
  {
    message[p] == '\r' && At(message, p + 1) == '\n' && p + 2 <= |message| && At(message, p + 2) == '\r'
    && p + 3 <= |message| && At(message, p + 3) == '\n'
  }

  lemma EmptyLineHere(message: string, p: nat)
    requires p < |message|
    ensures EmptyLine(message, p) <==> "\r\n\r\n" <= message[p..]
  {
    var m := message[p..];
    if EmptyLine(message, p) {
      assert m[0] == '\r' && m[1] == '\n' && m[2] == '\r' && m[3] == '\n';
    }
    if "\r\n\r\n" <= m {
      assert m[0] == '\r' && m[1] == '\n' && m[2] == '\r' && m[3] == '\n';
    }
  }

  // ---- what the parts are

  lemma PartNotEmpty(message: string, p: nat, maxlen: nat, dividers: Option<string>)
    requires p < |message| && maxlen >= 1
    ensures p < PartEnd(message, p, p, maxlen, dividers) <= p + maxlen
  {}

  /** A part ends at the first place that the tests accept, when it is full, or with the
      message. */
  lemma {:induction false} PartEndIsFirst(message: string, start: nat, p: nat, maxlen: nat, dividers: Option<string>)
    requires start <= p <= |message| && p - start <= maxlen
    ensures var end := PartEnd(message, start, p, maxlen, dividers);
            (forall q | p <= q < end - 1 :: !PartEndsAt(message, start, q, dividers))
            && (end == |message| || end - start == maxlen || (end > p && PartEndsAt(message, start, end - 1, dividers)))
    decreases |message| - p
  {
    hide PartEndsAt;
    if p - start == maxlen || p == |message| || PartEndsAt(message, start, p, dividers) {
    } else {
      PartEndIsFirst(message, start, p + 1, maxlen, dividers);
    }
  }

  /** A part that is neither full nor the last one ends at a divider before white space or
      at an empty line. */
  lemma ShortPartEndsAtBreak(message: string, p: nat, maxlen: nat, dividers: Option<string>)
    requires p < |message| && maxlen >= 1
    ensures var end := PartEnd(message, p, p, maxlen, dividers);
            end < |message| && end - p < maxlen ==> end > p && BreakAt(message, end - 1, dividers)
  {
    hide PartEnd;
    PartEndIsFirst(message, p, p, maxlen, dividers);
  }

  /** Of the length of the message, less remains behind index i than the tests ask for: more
      than two bytes after a divider or for "\n\n", more than four for "\r\n\r\n". */
  predicate TooLate(message: string, i: nat, c: char, dividers: Option<string>)
  {
    |message| - 1 - i <= 2 || (|message| - 1 - i <= 4 && !(dividers.Some? && c in dividers.value) && c != '\n')
  }

  /** Exactly when a part that has come to a place to break, and has room for more, goes
      past it.  The test is about the index q - p in the part, where the place q in the
      message would be expected. */
  lemma BreakPassedIff(message: string, p: nat, maxlen: nat, dividers: Option<string>, q: nat)
    requires p <= q < |message| && q + 1 < p + maxlen && q < PartEnd(message, p, p, maxlen, dividers)
    requires BreakAt(message, q, dividers)
    ensures q + 1 < PartEnd(message, p, p, maxlen, dividers) <==> TooLate(message, q - p, message[q], dividers)
  {
    hide PartEnd;
    PartEndIsFirst(message, p, p, maxlen, dividers);
    if "\r\n\r\n" <= message[q..] {
      LineBreaks(message, q);
    }
    assert PartEndsAt(message, p, q, dividers) <==> !TooLate(message, q - p, message[q], dividers);
  }

  lemma LineBreaks(message: string, q: nat)
    requires q < |message| && "\r\n\r\n" <= message[q..]
    ensures message[q] == '\r' && At(message, q + 1) == '\n' && q + 3 < |message|
  {
    EmptyLineHere(message, q);
  }

  /** The same text is cut at its full stop as a later part, and not as a message of its
      own: the length counts what was spoken before. */
  lemma LaterPartDiffers()
    ensures Parts("A. B. C", 0, 100, Some(".")) == ["A.", " B.", " C"]
    ensures Parts(" B. C", 0, 100, Some(".")) == [" B. C"]
  {
    var m, own := "A. B. C", " B. C";
    assert PartEnd(m, 0, 0, 100, Some(".")) == 2 by {
      assert !PartEndsAt(m, 0, 0, Some(".")) && PartEndsAt(m, 0, 1, Some("."));
    }
    assert PartEnd(m, 2, 2, 100, Some(".")) == 5 by {
      assert !PartEndsAt(m, 2, 2, Some(".")) && !PartEndsAt(m, 2, 3, Some(".")) && PartEndsAt(m, 2, 4, Some("."));
    }
    assert PartEnd(m, 5, 5, 100, Some(".")) == 7 by {
      assert !PartEndsAt(m, 5, 5, Some(".")) && !PartEndsAt(m, 5, 6, Some("."));
    }
    assert m[0..2] == "A." && m[2..5] == " B." && m[5..7] == " C";
    assert PartEnd(own, 0, 3, 100, Some(".")) == 5 by {
      assert !PartEndsAt(own, 0, 3, Some(".")) && !PartEndsAt(own, 0, 4, Some("."));
    }
    assert PartEnd(own, 0, 0, 100, Some(".")) == 5 by {
      assert !PartEndsAt(own, 0, 0, Some(".")) && !PartEndsAt(own, 0, 1, Some("."))
             && !PartEndsAt(own, 0, 2, Some("."));
    }
    assert own[0..5] == own;
  }

  /** The parts of a message from p on. */
  function Parts(message: string, p: nat, maxlen: nat, dividers: Option<string>): seq<string>
    requires p <= |message| && maxlen >= 1
    decreases |message| - p
  {
    if p == |message| then []
    else
      PartNotEmpty(message, p, maxlen, dividers);
      var end := PartEnd(message, p, p, maxlen, dividers);
      [message[p..end]] + Parts(message, end, maxlen, dividers)
  }

  function Joined(parts: seq<string>): string
  {
    if parts == [] then "" else parts[0] + Joined(parts[1..])
  }

  /** Parts are not empty nor longer than allowed, and join to the message. */
  lemma {:induction false} PartsJoin(message: string, p: nat, maxlen: nat, dividers: Option<string>)
    requires p <= |message| && maxlen >= 1
    ensures Joined(Parts(message, p, maxlen, dividers)) == message[p..]
    ensures forall part | part in Parts(message, p, maxlen, dividers) :: 1 <= |part| <= maxlen
    decreases |message| - p
  {
    hide PartEnd;
    if p == |message| {
    } else {
      PartNotEmpty(message, p, maxlen, dividers);
      var end := PartEnd(message, p, p, maxlen, dividers);
      PartsJoin(message, end, maxlen, dividers);
      var rest := Parts(message, end, maxlen, dividers);
      assert ([message[p..end]] + rest)[1..] == rest;
      assert message[p..] == message[p..end] + message[end..];
    }
  }

  /** The loop of a module that speaks a message part by part. */
  method SpeakParts(message: string, part: array<char>, maxlen: nat, dividers: Option<string>)
    returns (spoken: seq<string>)
    requires '\0' !in message && 1 <= maxlen < part.Length
    modifies part
    ensures spoken == Parts(message, 0, maxlen, dividers) && Joined(spoken) == message
    ensures forall s | s in spoken :: 1 <= |s| <= maxlen
  {
    hide PartEnd, Joined;
    spoken := [];
    var pos := 0;
    PartsStep([], message, 0, maxlen, dividers);
    while true
      invariant pos <= |message|
                && spoken + Parts(message, pos, maxlen, dividers) == Parts(message, 0, maxlen, dividers)
      decreases |message| - pos
    {
      var bytes;
      PartsStep(spoken, message, pos, maxlen, dividers);
      bytes, pos := GetMessagePart(message, part, pos, maxlen, dividers);
      if bytes < 0 {
        break;
      }
      spoken := spoken + [part[..bytes]];
    }
    PartsJoin(message, 0, maxlen, dividers);
    assert message[0..] == message;
  }

  lemma PartsStep(out: seq<string>, message: string, p: nat, maxlen: nat, dividers: Option<string>)
    requires p <= |message| && maxlen >= 1
    ensures [] + Parts(message, p, maxlen, dividers) == Parts(message, p, maxlen, dividers)
    ensures p == |message| ==> out + Parts(message, p, maxlen, dividers) == out
    ensures p < |message| ==>
              var end := PartEnd(message, p, p, maxlen, dividers);
              p < end
              && out + Parts(message, p, maxlen, dividers) ==
                 out + [message[p..end]] + Parts(message, end, maxlen, dividers)
  {
    hide PartEnd;
    if p < |message| {
      PartNotEmpty(message, p, maxlen, dividers);
      var end := PartEnd(message, p, p, maxlen, dividers);
      var rest := Parts(message, end, maxlen, dividers);
      assert out + ([message[p..end]] + rest) == out + [message[p..end]] + rest;
    }
  }
}
