/** How the eSpeak module cuts the synthesized audio at its events (synth_callback and
    espeak_send_audio_upto in src/modules/espeak.c). */
module EspeakCallback {
  import opened CStrings

  /** The events that eSpeak reports; positions are milliseconds in the message. */
  datatype Event =
    | Mark(position: int, name: string)
    | Play(position: int, name: string)
    | MsgTerminated
    | Other

  /** The entries of the playback queue.  count is the length that an audio entry claims;
      it is negative where the code goes back in the audio. */
  datatype Entry =
    | Audio(count: int, samples: seq<int>)
    | IndexMark(id: string)
    | SoundIcon(file: string)
    | Begin
    | End

  datatype EspeakState = Idle | BeforeSynth | BeforePlay | Speaking

  /** Division of C integers by a positive one: towards zero. */
  function Truncated(n: int, d: int): int
    requires d > 0
  {
    if n >= 0 then n / d else -((-n) / d)
  }

  function Clamp(n: int, low: int, high: int): int
  {
    if n > high then high else if n < low then low else n
  }

  predicate Positioned(e: Event) { e.Mark? || e.Play? }

  /** The samples of the current chunk that come before an event. */
  function Upto(e: Event, rate: int, sentMsg: int, numsamples: nat): (u: int)
    requires Positioned(e)
    ensures 0 <= u <= numsamples
  {
    Clamp(Truncated(e.position * rate, 1000) - sentMsg, 0, numsamples)
  }

  // ---- what a callback queues

  /** The audio entry for the samples from sent up to upto, if any. */
  function Chunk(wav: Option<seq<int>>, sent: int, upto: int): seq<Entry>
    requires wav.Some? ==> 0 <= sent <= |wav.value| && 0 <= upto <= |wav.value|
  {
    if wav.None? || sent == upto then []
    else [Audio(upto - sent, if sent < upto then wav.value[sent..upto] else [])]
  }

  function SentAfter(wav: Option<seq<int>>, sent: int, upto: int): int
  {
    if wav.None? then sent else upto
  }

  function EventEntry(e: Event): seq<Entry>
  {
    match e
    case Mark(_, name) => [IndexMark(name)]
    case Play(_, name) => [SoundIcon(name)]
    case MsgTerminated => [End]
    case Other => []
  }

  predicate Chunked(wav: Option<seq<int>>, numsamples: nat)
  {
    wav.Some? ==> |wav.value| == numsamples
  }

  /** The entries for the events from index k on, and for the rest of the audio. */
  function Queued(wav: Option<seq<int>>, numsamples: nat, events: seq<Event>, rate: int, sentMsg: int, k: nat,
                  sent: int): seq<Entry>
    requires Chunked(wav, numsamples) && 0 <= sent <= numsamples && k <= |events|
    decreases |events| - k
  {
    if k == |events| then Chunk(wav, sent, numsamples)
    else if Positioned(events[k]) then
      var upto := Upto(events[k], rate, sentMsg, numsamples);
      Chunk(wav, sent, upto) + EventEntry(events[k])
      + Queued(wav, numsamples, events, rate, sentMsg, k + 1, SentAfter(wav, sent, upto))
    else
      EventEntry(events[k]) + Queued(wav, numsamples, events, rate, sentMsg, k + 1, sent)
  }

  class Synthesis {
    const rate: int
    const stop: nat -> bool   // what espeak_stop_requested is at each time it is read
    var readCount: nat
    var state: EspeakState
    var numsamplesSentMsg: int
    var queue: seq<Entry>     // everything queued so far

    constructor (rate: int, stop: nat -> bool)
      ensures this.rate == rate && this.stop == stop && readCount == 0 && state == BeforeSynth && queue == []
    {
      this.rate, this.stop, readCount, state, numsamplesSentMsg, queue := rate, stop, 0, BeforeSynth, 0, [];
    }

    ghost predicate NeverStopped()
    {
      forall k: nat :: !stop(k)
    }

    method StopRequested() returns (requested: bool)
      modifies this`readCount
      ensures requested == stop(old(readCount)) && readCount == old(readCount) + 1
    {
      requested := stop(readCount);
      readCount := readCount + 1;
    }

    /** espeak_send_audio_upto; the result is not used by its callers. */
    method SendAudioUpto(wav: Option<seq<int>>, sent: int, upto: int) returns (sent': int)
      requires wav.Some? ==> 0 <= sent <= |wav.value| && 0 <= upto <= |wav.value|
      modifies this`queue, this`readCount
      ensures sent' == SentAfter(wav, sent, upto)
      ensures queue == old(queue) + (if stop(old(readCount)) then [] else Chunk(wav, sent, upto))
    {
      var numsamples := upto - sent;
      if wav.None? || numsamples == 0 {
        return sent;
      }
      var requested := StopRequested();
      if !requested {
        var chunk := if sent < upto then wav.value[sent..upto] else [];
        queue := queue + [Audio(numsamples, chunk)];
      }
      return upto;
    }

    /** synth_callback: a stop seen at its start lets it queue no more than a begin; without
        a stop it queues all it was given. */
    method SynthCallback(wav: Option<seq<int>>, numsamples: nat, events: seq<Event>) returns (ret: int)
      requires Chunked(wav, numsamples)
      modifies this`state, this`numsamplesSentMsg, this`queue, this`readCount
      ensures state == if old(state) == BeforeSynth then BeforePlay else old(state)
      ensures stop(old(readCount)) ==>
                ret == 1 && queue == old(queue) + (if old(state) == BeforeSynth then [Begin] else [])
      ensures NeverStopped() ==>
                ret == 0
                && var sentMsg := if old(state) == BeforeSynth then 0 else old(numsamplesSentMsg);
                   numsamplesSentMsg == sentMsg + numsamples
                   && queue == old(queue) + (if old(state) == BeforeSynth then [Begin] else [])
                               + Queued(wav, numsamples, events, rate, sentMsg, 0, 0)
    {
      hide Queued, Upto, Chunk, EventEntry;
      var numsamplesSent := 0;
      if state == BeforeSynth {
        numsamplesSentMsg := 0;
        state := BeforePlay;
        queue := queue + [Begin];
      }
      ghost var before, sentMsg := queue, numsamplesSentMsg;
      ghost var all := Queued(wav, numsamples, events, rate, sentMsg, 0, 0);
      var requested := StopRequested();
      if requested {
        return 1;
      }
      var k := 0;
      while k < |events|
        invariant k <= |events| && 0 <= numsamplesSent <= numsamples
        invariant state == (if old(state) == BeforeSynth then BeforePlay else old(state))
                  && numsamplesSentMsg == sentMsg
        invariant NeverStopped() ==>
                    queue + Queued(wav, numsamples, events, rate, sentMsg, k, numsamplesSent) == before + all
      {
        var e := events[k];
        QueuedStep(wav, numsamples, events, rate, sentMsg, k, numsamplesSent, queue);
        if Positioned(e) {
          var upto := Upto(e, rate, numsamplesSentMsg, numsamples);
          numsamplesSent := SendAudioUpto(wav, numsamplesSent, upto);
        }
        queue := queue + EventEntry(e);
        requested := StopRequested();
        if requested {
          return 1;
        }
        k := k + 1;
      }
      QueuedEnd(wav, numsamples, events, rate, sentMsg, numsamplesSent);
      numsamplesSent := SendAudioUpto(wav, numsamplesSent, numsamples);
      numsamplesSentMsg := numsamplesSentMsg + numsamples;
      return 0;
    }
  }

  lemma QueuedStep(wav: Option<seq<int>>, numsamples: nat, events: seq<Event>, rate: int, sentMsg: int, k: nat,
                   sent: int,
                   queue: seq<Entry>)
    requires Chunked(wav, numsamples) && 0 <= sent <= numsamples && k < |events|
    ensures queue + Queued(wav, numsamples, events, rate, sentMsg, k, sent) ==
            if Positioned(events[k]) then
              var upto := Upto(events[k], rate, sentMsg, numsamples);
              queue + Chunk(wav, sent, upto) + EventEntry(events[k])
              + Queued(wav, numsamples, events, rate, sentMsg, k + 1, SentAfter(wav, sent, upto))
            else
              queue + EventEntry(events[k]) + Queued(wav, numsamples, events, rate, sentMsg, k + 1, sent)
  {
    hide Upto, Chunk, EventEntry;
    if Positioned(events[k]) {
      var upto := Upto(events[k], rate, sentMsg, numsamples);
      var c, e := Chunk(wav, sent, upto), EventEntry(events[k]);
      var rest := Queued(wav, numsamples, events, rate, sentMsg, k + 1, SentAfter(wav, sent, upto));
      assert queue + (c + e + rest) == queue + c + e + rest;
    } else {
      var rest := Queued(wav, numsamples, events, rate, sentMsg, k + 1, sent);
      assert queue + (EventEntry(events[k]) + rest) == queue + EventEntry(events[k]) + rest;
    }
  }

  lemma QueuedEnd(wav: Option<seq<int>>, numsamples: nat, events: seq<Event>, rate: int, sentMsg: int, sent: int)
    requires Chunked(wav, numsamples) && 0 <= sent <= numsamples
    ensures Queued(wav, numsamples, events, rate, sentMsg, |events|, sent) == Chunk(wav, sent, numsamples)
  {}

  // ---- the audio is partitioned

  /** All samples of the queue, in order. */
  function Samples(q: seq<Entry>): seq<int>
  {
    if q == [] then [] else (if q[0].Audio? then q[0].samples else []) + Samples(q[1..])
  }

  lemma {:induction false} SamplesConcat(a: seq<Entry>, b: seq<Entry>)
    ensures Samples(a + b) == Samples(a) + Samples(b)
  {
    if a == [] {
      assert a + b == b;
    } else {
      assert (a + b)[1..] == a[1..] + b;
      SamplesConcat(a[1..], b);
    }
  }

  /** The chunk positions of the events from index k on do not go back, nor behind what
      was sent. */
  ghost predicate Ordered(events: seq<Event>, rate: int, sentMsg: int, numsamples: nat, k: nat, sent: int)
    requires k <= |events|
    decreases |events| - k
  {
    k == |events|
    || (if Positioned(events[k]) then
          var upto := Upto(events[k], rate, sentMsg, numsamples);
          sent <= upto && Ordered(events, rate, sentMsg, numsamples, k + 1, upto)
        else Ordered(events, rate, sentMsg, numsamples, k + 1, sent))
  }

  /** Every audio entry is as long as it claims. */
  ghost predicate Sound(q: seq<Entry>)
  {
    forall e | e in q && e.Audio? :: e.count == |e.samples|
  }

  lemma SoundConcat(a: seq<Entry>, b: seq<Entry>)
    ensures Sound(a + b) <==> Sound(a) && Sound(b)
  {
    assert forall e :: e in a + b <==> e in a || e in b;
  }

  lemma ChunkSamples(wav: seq<int>, sent: int, upto: int)
    requires 0 <= sent <= |wav| && 0 <= upto <= |wav|
    ensures Sound(Chunk(Some(wav), sent, upto)) <==> sent <= upto
    ensures sent <= upto ==> Samples(Chunk(Some(wav), sent, upto)) == wav[sent..upto]
  {
    var c := Chunk(Some(wav), sent, upto);
    if sent != upto {
      assert c[0] in c && c[1..] == [];
    }
  }

  lemma EventHasNoAudio(e: Event)
    ensures Sound(EventEntry(e)) && Samples(EventEntry(e)) == []
  {
    assert forall x | x in EventEntry(e) :: !x.Audio?;
    assert EventEntry(e) != [] ==> EventEntry(e)[1..] == [];
  }

  /** A callback queues audio of its claimed length only, exactly if the clamped positions
      of its events do not go back; then the audio queued is just the audio synthesized. */
  lemma {:induction false} PartitionIff(wav: seq<int>, events: seq<Event>, rate: int, sentMsg: int, k: nat, sent: int)
    requires 0 <= sent <= |wav| && k <= |events|
    ensures var q := Queued(Some(wav), |wav|, events, rate, sentMsg, k, sent);
            (Sound(q) <==> Ordered(events, rate, sentMsg, |wav|, k, sent))
            && (Sound(q) ==> Samples(q) == wav[sent..])
    decreases |events| - k
  {
    hide Sound, Samples, Chunk, EventEntry, Upto;
    if k == |events| {
      ChunkSamples(wav, sent, |wav|);
      assert wav[sent..|wav|] == wav[sent..];
    } else {
      var e := EventEntry(events[k]);
      EventHasNoAudio(events[k]);
      if Positioned(events[k]) {
        var upto := Upto(events[k], rate, sentMsg, |wav|);
        var c, rest := Chunk(Some(wav), sent, upto), Queued(Some(wav), |wav|, events, rate, sentMsg, k + 1, upto);
        PartitionIff(wav, events, rate, sentMsg, k + 1, upto);
        ChunkSamples(wav, sent, upto);
        SoundConcat(c + e, rest);
        SoundConcat(c, e);
        SamplesConcat(c + e, rest);
        SamplesConcat(c, e);
        assert sent <= upto ==> wav[sent..upto] + [] + wav[upto..] == wav[sent..];
      } else {
        var rest := Queued(Some(wav), |wav|, events, rate, sentMsg, k + 1, sent);
        PartitionIff(wav, events, rate, sentMsg, k + 1, sent);
        SoundConcat(e, rest);
        SamplesConcat(e, rest);
        assert [] + wav[sent..] == wav[sent..];
      }
    }
  }

  /** Events in the order of their positions keep the clamped positions in order. */
  lemma {:induction false} PositionsOrder(events: seq<Event>, rate: int, sentMsg: int, numsamples: nat, k: nat,
                                          sent: int)
    requires k <= |events| && rate >= 0
    requires forall i, j | k <= i < j < |events| && Positioned(events[i]) && Positioned(events[j]) ::
               events[i].position <= events[j].position
    requires forall i | k <= i < |events| && Positioned(events[i]) :: sent <= Upto(events[i], rate, sentMsg, numsamples)
    ensures Ordered(events, rate, sentMsg, numsamples, k, sent)
    decreases |events| - k
  {
    hide Upto;
    if k == |events| {
    } else {
      if Positioned(events[k]) {
        forall i | k < i < |events| && Positioned(events[i])
          ensures Upto(events[k], rate, sentMsg, numsamples) <= Upto(events[i], rate, sentMsg, numsamples)
        {
          UptoMonotone(events[k], events[i], rate, sentMsg, numsamples);
        }
        PositionsOrder(events, rate, sentMsg, numsamples, k + 1, Upto(events[k], rate, sentMsg, numsamples));
      } else {
        PositionsOrder(events, rate, sentMsg, numsamples, k + 1, sent);
      }
    }
  }

  lemma TruncatedMonotone(m: int, n: int)
    requires m <= n
    ensures Truncated(m, 1000) <= Truncated(n, 1000)
  {}

  lemma UptoMonotone(a: Event, b: Event, rate: int, sentMsg: int, numsamples: nat)
    requires Positioned(a) && Positioned(b) && a.position <= b.position && rate >= 0
    ensures Upto(a, rate, sentMsg, numsamples) <= Upto(b, rate, sentMsg, numsamples)
  {
    hide Truncated;
    assert a.position * rate <= b.position * rate;
    TruncatedMonotone(a.position * rate, b.position * rate);
  }

  // ---- marks are placed

  /** The marks and icons of a queue, each with the number of samples before it. */
  function Placed(q: seq<Entry>, before: int): seq<(Entry, int)>
  {
    if q == [] then []
    else match q[0]
         case Audio(count, _) => Placed(q[1..], before + count)
         case IndexMark(_) => [(q[0], before)] + Placed(q[1..], before)
         case SoundIcon(_) => [(q[0], before)] + Placed(q[1..], before)
         case _ => Placed(q[1..], before)
  }

  /** What the positions of the events call for. */
  function Called(events: seq<Event>, rate: int, sentMsg: int, numsamples: nat, k: nat): seq<(Entry, int)>
    requires k <= |events|
    decreases |events| - k
  {
    if k == |events| then []
    else match events[k]
         case Mark(_, name) =>
           [(IndexMark(name), sentMsg + Upto(events[k], rate, sentMsg, numsamples))]
             + Called(events, rate, sentMsg, numsamples, k + 1)
         case Play(_, name) =>
           [(SoundIcon(name), sentMsg + Upto(events[k], rate, sentMsg, numsamples))]
             + Called(events, rate, sentMsg, numsamples, k + 1)
         case _ => Called(events, rate, sentMsg, numsamples, k + 1)
  }

  lemma PlacedChunk(wav: seq<int>, sent: int, upto: int, rest: seq<Entry>, before: int)
    requires 0 <= sent <= |wav| && 0 <= upto <= |wav|
    ensures Placed(Chunk(Some(wav), sent, upto) + rest, before) == Placed(rest, before + upto - sent)
  {
    var c := Chunk(Some(wav), sent, upto);
    if sent == upto {
      assert c + rest == rest;
    } else {
      assert (c + rest)[1..] == rest;
    }
  }

  lemma PlacedEvent(e: Event, rest: seq<Entry>, before: int)
    ensures Placed(EventEntry(e) + rest, before) ==
            (if Positioned(e) then [(EventEntry(e)[0], before)] else []) + Placed(rest, before)
  {
    assert EventEntry(e) == [] ==> EventEntry(e) + rest == rest;
    assert EventEntry(e) != [] ==> (EventEntry(e) + rest)[1..] == rest;
  }

  /** Each mark is queued after exactly the samples that its position calls for, limited
      to the chunk it is reported with. */
  lemma {:induction false} MarksArePlaced(wav: seq<int>, events: seq<Event>, rate: int, sentMsg: int, k: nat, sent: int)
    requires 0 <= sent <= |wav| && k <= |events|
    ensures Placed(Queued(Some(wav), |wav|, events, rate, sentMsg, k, sent), sentMsg + sent)
            == Called(events, rate, sentMsg, |wav|, k)
    decreases |events| - k
  {
    hide Queued, Placed, Called, Chunk, Upto, EventEntry;
    CalledStep(events, rate, sentMsg, |wav|, k);
    if k == |events| {
      PlacedChunk(wav, sent, |wav|, [], sentMsg + sent);
      QueuedEnd(Some(wav), |wav|, events, rate, sentMsg, sent);
      assert Chunk(Some(wav), sent, |wav|) + [] == Chunk(Some(wav), sent, |wav|);
      PlacedNone(sentMsg + |wav|);
    } else {
      var e := EventEntry(events[k]);
      QueuedStep(Some(wav), |wav|, events, rate, sentMsg, k, sent, []);
      assert [] + Queued(Some(wav), |wav|, events, rate, sentMsg, k, sent) ==
             Queued(Some(wav), |wav|, events, rate, sentMsg, k, sent);
      if Positioned(events[k]) {
        var upto := Upto(events[k], rate, sentMsg, |wav|);
        var c, rest := Chunk(Some(wav), sent, upto), Queued(Some(wav), |wav|, events, rate, sentMsg, k + 1, upto);
        MarksArePlaced(wav, events, rate, sentMsg, k + 1, upto);
        assert [] + c + e + rest == c + (e + rest);
        PlacedChunk(wav, sent, upto, e + rest, sentMsg + sent);
        PlacedEvent(events[k], rest, sentMsg + upto);
      } else {
        var rest := Queued(Some(wav), |wav|, events, rate, sentMsg, k + 1, sent);
        MarksArePlaced(wav, events, rate, sentMsg, k + 1, sent);
        assert [] + e + rest == e + rest;
        PlacedEvent(events[k], rest, sentMsg + sent);
        assert [] + Placed(rest, sentMsg + sent) == Placed(rest, sentMsg + sent);
      }
    }
  }

  lemma CalledStep(events: seq<Event>, rate: int, sentMsg: int, numsamples: nat, k: nat)
    requires k <= |events|
    ensures Called(events, rate, sentMsg, numsamples, k) ==
            if k == |events| then []
            else (if Positioned(events[k])
                  then [(EventEntry(events[k])[0], sentMsg + Upto(events[k], rate, sentMsg, numsamples))]
                  else []) + Called(events, rate, sentMsg, numsamples, k + 1)
  {
    hide Upto;
    assert k < |events| ==>
           [] + Called(events, rate, sentMsg, numsamples, k + 1) == Called(events, rate, sentMsg, numsamples, k + 1);
  }

  lemma PlacedNone(before: int)
    ensures Placed([], before) == []
  {}

  // ---- a whole message

  /** One call of the callback with audio. */
  datatype Call = Call(wav: seq<int>, events: seq<Event>)

  /** What the calls for a message queue after its BEGIN. */
  function Message(calls: seq<Call>, rate: int, sentMsg: nat): seq<Entry>
    decreases calls
  {
    if calls == [] then []
    else Queued(Some(calls[0].wav), |calls[0].wav|, calls[0].events, rate, sentMsg, 0, 0)
         + Message(calls[1..], rate, sentMsg + |calls[0].wav|)
  }

  function Audios(calls: seq<Call>): seq<int>
  {
    if calls == [] then [] else calls[0].wav + Audios(calls[1..])
  }

  ghost predicate InOrder(events: seq<Event>)
  {
    forall i, j | 0 <= i < j < |events| && Positioned(events[i]) && Positioned(events[j]) ::
      events[i].position <= events[j].position
  }

  /** Without a stop and with the events of each call in order, the audio entries of a
      message concatenate to exactly the synthesized audio. */
  lemma {:induction false} MessageAudio(calls: seq<Call>, rate: int, sentMsg: nat)
    requires rate >= 0 && forall c | c in calls :: InOrder(c.events)
    ensures Sound(Message(calls, rate, sentMsg)) && Samples(Message(calls, rate, sentMsg)) == Audios(calls)
    decreases calls
  {
    hide Queued, Sound, Samples, Upto;
    if calls == [] {
      EventHasNoAudio(Other);
    } else {
      var c := calls[0];
      assert c in calls && forall d | d in calls[1..] :: d in calls;
      var q, rest := Queued(Some(c.wav), |c.wav|, c.events, rate, sentMsg, 0, 0),
        Message(calls[1..], rate, sentMsg + |c.wav|);
      PositionsOrder(c.events, rate, sentMsg, |c.wav|, 0, 0);
      PartitionIff(c.wav, c.events, rate, sentMsg, 0, 0);
      MessageAudio(calls[1..], rate, sentMsg + |c.wav|);
      SoundConcat(q, rest);
      SamplesConcat(q, rest);
      assert c.wav[0..] == c.wav;
    }
  }

  /** The length that the audio entries claim together. */
  function Count(q: seq<Entry>): int
  {
    if q == [] then 0 else (if q[0].Audio? then q[0].count else 0) + Count(q[1..])
  }

  lemma {:induction false} PlacedConcat(a: seq<Entry>, b: seq<Entry>, before: int)
    ensures Placed(a + b, before) == Placed(a, before) + Placed(b, before + Count(a))
  {
    if a == [] {
      assert a + b == b && [] + Placed(b, before) == Placed(b, before);
    } else {
      assert (a + b)[1..] == a[1..] + b && (a + b)[0] == a[0];
      PlacedConcat(a[1..], b, if a[0].Audio? then before + a[0].count else before);
    }
  }

  lemma {:induction false} CountConcat(a: seq<Entry>, b: seq<Entry>)
    ensures Count(a + b) == Count(a) + Count(b)
  {
    if a == [] {
      assert a + b == b;
    } else {
      assert (a + b)[1..] == a[1..] + b && (a + b)[0] == a[0];
      CountConcat(a[1..], b);
    }
  }

  lemma CountParts(wav: seq<int>, sent: int, upto: int, e: Event)
    requires 0 <= sent <= |wav| && 0 <= upto <= |wav|
    ensures Count(Chunk(Some(wav), sent, upto)) == upto - sent && Count(EventEntry(e)) == 0
  {
    var c := Chunk(Some(wav), sent, upto);
    assert c != [] ==> c[1..] == [];
    assert EventEntry(e) != [] ==> EventEntry(e)[1..] == [];
  }

  /** A call claims as many samples as it got, whatever its events. */
  lemma {:induction false} CountQueued(wav: seq<int>, events: seq<Event>, rate: int, sentMsg: int, k: nat, sent: int)
    requires 0 <= sent <= |wav| && k <= |events|
    ensures Count(Queued(Some(wav), |wav|, events, rate, sentMsg, k, sent)) == |wav| - sent
    decreases |events| - k
  {
    hide Count, Chunk, Upto, EventEntry;
    CountParts(wav, sent, |wav|, Other);
    if k == |events| {
    } else {
      var e := EventEntry(events[k]);
      var upto := if Positioned(events[k]) then Upto(events[k], rate, sentMsg, |wav|) else sent;
      var rest := Queued(Some(wav), |wav|, events, rate, sentMsg, k + 1, upto);
      CountQueued(wav, events, rate, sentMsg, k + 1, upto);
      CountParts(wav, sent, upto, events[k]);
      CountConcat(Chunk(Some(wav), sent, upto), e);
      CountConcat(Chunk(Some(wav), sent, upto) + e, rest);
      CountConcat(e, rest);
    }
  }

  /** What the event positions of all calls call for. */
  function AllCalled(calls: seq<Call>, rate: int, sentMsg: nat): seq<(Entry, int)>
    decreases calls
  {
    if calls == [] then []
    else
      Called(calls[0].events, rate, sentMsg, |calls[0].wav|, 0)
      + AllCalled(calls[1..], rate, sentMsg + |calls[0].wav|)
  }

  /** In a whole message, each mark is queued after exactly the samples of the message
      that its position calls for, limited to the call it is reported with. */
  lemma {:induction false} MessageMarks(calls: seq<Call>, rate: int, sentMsg: nat)
    ensures Placed(Message(calls, rate, sentMsg), sentMsg) == AllCalled(calls, rate, sentMsg)
    decreases calls
  {
    hide Queued, Placed, Called, Count;
    if calls == [] {
      PlacedNone(sentMsg);
    } else {
      var c := calls[0];
      var q, rest := Queued(Some(c.wav), |c.wav|, c.events, rate, sentMsg, 0, 0),
        Message(calls[1..], rate, sentMsg + |c.wav|);
      MarksArePlaced(c.wav, c.events, rate, sentMsg, 0, 0);
      CountQueued(c.wav, c.events, rate, sentMsg, 0, 0);
      PlacedConcat(q, rest, sentMsg);
      MessageMarks(calls[1..], rate, sentMsg + |c.wav|);
    }
  }

  // ---- the places of marks, in arithmetic

  /** The number of samples of the message before an event at a position, when it comes
      with the n samples after the first n0. */
  function Spot(position: int, rate: int, n0: nat, n: nat): int
  {
    var at := position * rate / 1000;
    if at < n0 then n0 else if at > n0 + n then n0 + n else at
  }

  /** The marks and icons of a call's events, each with its place. */
  function Spots(events: seq<Event>, rate: int, n0: nat, n: nat): seq<(Entry, int)>
  {
    if events == [] then []
    else
      (match events[0]
       case Mark(position, name) => [(IndexMark(name), Spot(position, rate, n0, n))]
       case Play(position, name) => [(SoundIcon(name), Spot(position, rate, n0, n))]
       case _ => [])
      + Spots(events[1..], rate, n0, n)
  }

  function AllSpots(calls: seq<Call>, rate: int, n0: nat): seq<(Entry, int)>
  {
    if calls == [] then []
    else Spots(calls[0].events, rate, n0, |calls[0].wav|) + AllSpots(calls[1..], rate, n0 + |calls[0].wav|)
  }

  lemma UptoIsSpot(e: Event, rate: int, n0: nat, n: nat)
    requires Positioned(e)
    ensures n0 + Upto(e, rate, n0, n) == Spot(e.position, rate, n0, n)
  {
    var p := e.position * rate;
    assert p < 0 ==> p / 1000 < 0 && Truncated(p, 1000) <= 0;
  }

  lemma {:induction false} CalledIsSpots(events: seq<Event>, rate: int, n0: nat, n: nat, k: nat)
    requires k <= |events|
    ensures Called(events, rate, n0, n, k) == Spots(events[k..], rate, n0, n)
    decreases |events| - k
  {
    hide Upto, Spot;
    if k == |events| {
    } else {
      assert events[k..][1..] == events[k + 1..];
      CalledIsSpots(events, rate, n0, n, k + 1);
      if Positioned(events[k]) {
        UptoIsSpot(events[k], rate, n0, n);
      } else {
        assert [] + Spots(events[k + 1..], rate, n0, n) == Spots(events[k + 1..], rate, n0, n);
      }
    }
  }

  /** In a whole message, the mark of an event at a position p comes after p * rate / 1000
      samples of the message, if the call that reports it has these; otherwise it comes at
      the start of the call if they were sent before, and at its end if they are to come. */
  lemma {:induction false} MarkSpots(calls: seq<Call>, rate: int, n0: nat)
    ensures Placed(Message(calls, rate, n0), n0) == AllSpots(calls, rate, n0)
    decreases calls
  {
    hide Message, Placed, Called, Spots;
    MessageMarks(calls, rate, n0);
    if calls == [] {
    } else {
      assert calls[0].events[0..] == calls[0].events;
      CalledIsSpots(calls[0].events, rate, n0, |calls[0].wav|, 0);
      MarkSpots(calls[1..], rate, n0 + |calls[0].wav|);
      MessageMarks(calls[1..], rate, n0 + |calls[0].wav|);
    }
  }

  // ---- the order of everything else

  /** The entries but for audio. */
  function Flags(q: seq<Entry>): seq<Entry>
  {
    if q == [] then [] else (if q[0].Audio? then [] else [q[0]]) + Flags(q[1..])
  }

  /** The events that are passed on to the player. */
  function Passed(events: seq<Event>): seq<Entry>
  {
    if events == [] then []
    else (match events[0]
          case Mark(_, name) => [IndexMark(name)]
          case Play(_, name) => [SoundIcon(name)]
          case MsgTerminated => [End]
          case Other => []) + Passed(events[1..])
  }

  function AllPassed(calls: seq<Call>): seq<Entry>
  {
    if calls == [] then [] else Passed(calls[0].events) + AllPassed(calls[1..])
  }

  lemma {:induction false} FlagsConcat(a: seq<Entry>, b: seq<Entry>)
    ensures Flags(a + b) == Flags(a) + Flags(b)
  {
    if a == [] {
      assert a + b == b;
    } else {
      assert (a + b)[1..] == a[1..] + b;
      FlagsConcat(a[1..], b);
    }
  }

  lemma FlagsOfOne(wav: Option<seq<int>>, sent: int, upto: int, e: Event)
    requires wav.Some? ==> 0 <= sent <= |wav.value| && 0 <= upto <= |wav.value|
    ensures Flags(Chunk(wav, sent, upto)) == [] && Flags(EventEntry(e)) == EventEntry(e)
  {
    var c := Chunk(wav, sent, upto);
    assert c != [] ==> c[1..] == [];
    assert EventEntry(e) != [] ==> EventEntry(e)[1..] == [];
  }

  lemma {:induction false} QueuedFlags(wav: seq<int>, events: seq<Event>, rate: int, sentMsg: int, k: nat, sent: int)
    requires 0 <= sent <= |wav| && k <= |events|
    ensures Flags(Queued(Some(wav), |wav|, events, rate, sentMsg, k, sent)) == Passed(events[k..])
    decreases |events| - k
  {
    hide Chunk, Upto, Flags;
    FlagsOfOne(Some(wav), sent, |wav|, Other);
    if k == |events| {
    } else {
      assert events[k..][1..] == events[k + 1..];
      var e := EventEntry(events[k]);
      var upto := if Positioned(events[k]) then Upto(events[k], rate, sentMsg, |wav|) else sent;
      var rest := Queued(Some(wav), |wav|, events, rate, sentMsg, k + 1, upto);
      QueuedFlags(wav, events, rate, sentMsg, k + 1, upto);
      FlagsOfOne(Some(wav), sent, upto, events[k]);
      FlagsConcat(Chunk(Some(wav), sent, upto), e);
      FlagsConcat(Chunk(Some(wav), sent, upto) + e, rest);
      FlagsConcat(e, rest);
      assert [] + e == e;
    }
  }

  /** All marks, icons and ends that eSpeak reports reach the player, in their order. */
  lemma {:induction false} MessageFlags(calls: seq<Call>, rate: int, sentMsg: nat)
    ensures Flags(Message(calls, rate, sentMsg)) == AllPassed(calls)
    decreases calls
  {
    hide Queued, Passed;
    if calls == [] {
    } else {
      var c := calls[0];
      QueuedFlags(c.wav, c.events, rate, sentMsg, 0, 0);
      assert c.events[0..] == c.events;
      MessageFlags(calls[1..], rate, sentMsg + |c.wav|);
      FlagsConcat(Queued(Some(c.wav), |c.wav|, c.events, rate, sentMsg, 0, 0),
                  Message(calls[1..], rate, sentMsg + |c.wav|));
    }
  }

  /** The calls of one message, by running the callback. */
  method Synthesize(calls: seq<Call>, rate: int, stop: nat -> bool) returns (synthesis: Synthesis)
    requires rate >= 0 && forall c | c in calls :: InOrder(c.events)
    ensures (forall k: nat :: !stop(k)) && calls != [] ==>
              synthesis.queue == [Begin] + Message(calls, rate, 0) && Samples(synthesis.queue) == Audios(calls)
  {
    hide Queued, Sound, Samples, Audios, Message, InOrder;
    synthesis := new Synthesis(rate, stop);
    ghost var goesOn := forall k: nat :: !stop(k);
    MessageFrom(calls, rate, 0, 0);
    ghost var sent: nat := 0;
    var k := 0;
    while k < |calls|
      invariant k <= |calls| && synthesis.rate == rate && synthesis.stop == stop
      invariant synthesis.state == (if k == 0 then BeforeSynth else BeforePlay)
      invariant k == 0 ==> synthesis.queue == [] && sent == 0 && calls[k..] == calls
      invariant goesOn && k > 0 ==> synthesis.numsamplesSentMsg == sent
      invariant goesOn && k > 0 ==>
                  synthesis.queue + Message(calls[k..], rate, sent) == [Begin] + Message(calls, rate, 0)
    {
      MessageFrom(calls, rate, sent, k);
      ghost var q := Queued(Some(calls[k].wav), |calls[k].wav|, calls[k].events, rate, sent, 0, 0);
      ghost var rest := Message(calls[k + 1..], rate, sent + |calls[k].wav|);
      ghost var was := synthesis.queue;
      var _ := synthesis.SynthCallback(Some(calls[k].wav), |calls[k].wav|, calls[k].events);
      assert was + [] + q + rest == was + (q + rest) && [] + [Begin] + q + rest == [Begin] + (q + rest);
      sent := sent + |calls[k].wav|;
      k := k + 1;
    }
    MessageEnds(calls, rate, sent);
    assert synthesis.queue + [] == synthesis.queue;
    MessageAudio(calls, rate, 0);
    SamplesConcat([Begin], Message(calls, rate, 0));
    BeginHasNoAudio();
    assert [] + Audios(calls) == Audios(calls);
  }

  lemma MessageFrom(calls: seq<Call>, rate: int, sent: nat, k: nat)
    requires k <= |calls|
    ensures k == 0 ==> calls[k..] == calls
    ensures k < |calls| ==>
              Message(calls[k..], rate, sent) ==
              Queued(Some(calls[k].wav), |calls[k].wav|, calls[k].events, rate, sent, 0, 0)
              + Message(calls[k + 1..], rate, sent + |calls[k].wav|)
  {
    hide Queued;
    assert k < |calls| ==> calls[k..][1..] == calls[k + 1..];
  }

  lemma MessageEnds(calls: seq<Call>, rate: int, sent: nat)
    ensures Message(calls[|calls|..], rate, sent) == []
  {}

  lemma BeginHasNoAudio()
    ensures Samples([Begin]) == []
  {
    assert [Begin][1..] == [];
  }
}
