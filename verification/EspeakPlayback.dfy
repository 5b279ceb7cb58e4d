/** From the synthesis to the player of the eSpeak module: without a stop, what is played is
    the synthesized audio; with stops and pauses, what is played while a message is spoken
    is the first part of what was synthesized for it. */
module EspeakPlayback {
  import opened CStrings
  import EspeakCallback
  import opened EspeakQueue
  import opened EspeakQueueProperties

  /** The samples of the audio entries, in order. */
  function Heard(q: seq<Entry>): seq<int>
  {
    if q == [] then [] else (if q[0].Audio? then q[0].samples else []) + Heard(q[1..])
  }

  /** The entries but for the begins, which the callback adds by itself. */
  function Plain(q: seq<Entry>): seq<Entry>
  {
    if q == [] then [] else (if q[0].Begin? then [] else [q[0]]) + Plain(q[1..])
  }

  lemma {:induction false} HeardConcat(a: seq<Entry>, b: seq<Entry>)
    ensures Heard(a + b) == Heard(a) + Heard(b)
  {
    if a == [] {
      assert a + b == b;
    } else {
      assert (a + b)[1..] == a[1..] + b;
      HeardConcat(a[1..], b);
    }
  }

  lemma {:induction false} PlainConcat(a: seq<Entry>, b: seq<Entry>)
    ensures Plain(a + b) == Plain(a) + Plain(b)
  {
    if a == [] {
      assert a + b == b;
    } else {
      assert (a + b)[1..] == a[1..] + b;
      PlainConcat(a[1..], b);
    }
  }

  lemma {:induction false} PlainHeard(q: seq<Entry>)
    ensures Heard(Plain(q)) == Heard(q)
  {
    if q == [] {
    } else {
      PlainHeard(q[1..]);
      var rest := Plain(q[1..]);
      HeardConcat([q[0]], rest);
      assert [q[0]][1..] == [] && [] + rest == rest && [] + Heard(rest) == Heard(rest);
      assert q[0].Audio? ==> q[0].samples + [] == q[0].samples;
    }
  }

  lemma HeardPrefix(a: seq<Entry>, b: seq<Entry>)
    requires a <= b
    ensures Heard(a) <= Heard(b)
  {
    assert b == a + b[|a|..];
    HeardConcat(a, b[|a|..]);
  }

  // ---- what a run adds, and what it plays

  /** The entries that the callbacks of a run add, in order. */
  function Added(actions: seq<Action>): seq<Entry>
  {
    if actions == [] then []
    else (if actions[0].Add? then [actions[0].e] else []) + Added(actions[1..])
  }

  /** The entry that the synthesizing thread is about to push. */
  function Pending(p: ProducerAt): seq<Entry>
  {
    if SeeksRoom(p) || p.WantPush? || p.Push? then [p.e] else []
  }

  /** Nobody has asked for a stop or a pause. */
  predicate Unasked(s: State)
  {
    !s.stop && s.pause.PauseOff? && s.stops == 0 && (s.stopper.TryStop? || s.stopper.LockStop? || s.stopper.Resting?)
  }

  function Taken(s: State): seq<Entry>
  {
    Plain(s.past.pushed) + Plain(Pending(s.producer))
  }

  lemma PlainOne(e: Entry)
    ensures Plain([e]) == if e.Begin? then [] else [e]
    ensures Plain([]) == []
  {
    assert [e][1..] == [];
  }

  lemma SeekerTakes(s: State, max: nat)
    requires Unasked(s) && SeeksRoom(s.producer) && SeekerNext(s, max).Some?
    ensures var t := SeekerNext(s, max).value; Unasked(t) && Taken(t) == Taken(s)
  {
    hide Plain;
  }

  lemma PusherTakes(s: State)
    requires Unasked(s) && !SeeksRoom(s.producer) && PusherNext(s).Some?
    ensures var t := PusherNext(s).value; Unasked(t) && Taken(t) == Taken(s)
  {
    hide Plain, Length;
    PlainOne(Begin);
    if s.producer.Push? {
      PlainConcat(s.past.pushed, [s.producer.e]);
    }
  }

  lemma ConsumerTakes(s: State)
    requires Unasked(s) && ConsumerNext(s).Some?
    ensures var t := ConsumerNext(s).value; Unasked(t) && Taken(t) == Taken(s)
  {
    hide Plain, Length;
  }

  lemma StopperTakes(s: State)
    requires Unasked(s) && StopperNext(s).Some?
    ensures var t := StopperNext(s).value; Unasked(t) && Taken(t) == Taken(s)
  {
    hide Plain, StopNext;
  }

  lemma NextTakes(s: State, a: Action, max: nat)
    requires Unasked(s) && !a.RequestStop? && !a.RequestPause? && Next(s, a, max).Some?
    ensures var t := Next(s, a, max).value;
            Unasked(t) && Taken(t) == Taken(s) + (if a.Add? then [a.e] else [])
  {
    hide Plain, SeekerNext, PusherNext, ConsumerNext, StopperNext;
    match a {
      case ProducerStep => if SeeksRoom(s.producer) { SeekerTakes(s, max); } else { PusherTakes(s); }
      case ConsumerStep => ConsumerTakes(s);
      case StopperStep => StopperTakes(s);
      case Add(e) => PlainOne(e);
      case _ =>
    }
  }

  lemma {:induction false} ExecTakes(s: State, actions: seq<Action>, max: nat)
    requires Unasked(s) && Calm(actions) && Exec(s, actions, max).Some?
    ensures Unasked(Exec(s, actions, max).value)
    ensures Taken(Exec(s, actions, max).value) == Taken(s) + Added(actions)
    decreases actions
  {
    hide Next, Unasked, Taken;
    if actions == [] {
      assert Taken(s) + [] == Taken(s);
    } else {
      var a := actions[0];
      NextTakes(s, a, max);
      ExecTakes(Next(s, a, max).value, actions[1..], max);
      var one := if a.Add? then [a.e] else [];
      assert Taken(s) + (one + Added(actions[1..])) == (Taken(s) + one) + Added(actions[1..]);
    }
  }

  /** In every run without a stop or a pause, the entries that the player takes are the first
      of those that the callbacks added, in order; what is missing waits in the queue or is
      about to be pushed. */
  lemma PlayedInOrder(actions: seq<Action>, max: nat)
    requires Calm(actions) && Exec(Initial(), actions, max).Some?
    ensures var s := Exec(Initial(), actions, max).value;
            Plain(s.past.popped) + (Plain(s.queue) + Plain(Pending(s.producer))) == Added(actions)
  {
    hide Exec, Plain, Added, Unasked, Pending;
    InitialTakes();
    ExecTakes(Initial(), actions, max);
    QueueAccounts(actions, max);
    var s := Exec(Initial(), actions, max).value;
    PlainConcat(s.past.popped, s.queue);
    var popped, queued, pending := Plain(s.past.popped), Plain(s.queue), Plain(Pending(s.producer));
    assert (popped + queued) + pending == popped + (queued + pending);
    assert [] + Added(actions) == Added(actions);
  }

  lemma InitialTakes()
    ensures Unasked(Initial()) && Taken(Initial()) == []
  {}

  // ---- the entries of a message

  /** An entry of the callback, as the queue knows it. */
  function AsQueued(e: EspeakCallback.Entry): Entry
  {
    match e
    case Audio(_, samples) => Audio(samples)
    case IndexMark(id) => IndexMark("__spd_" <= id)
    case SoundIcon(_) => SoundIcon
    case Begin => Begin
    case End => End
  }

  function AllQueued(q: seq<EspeakCallback.Entry>): seq<Entry>
  {
    if q == [] then [] else [AsQueued(q[0])] + AllQueued(q[1..])
  }

  lemma {:induction false} SamplesHeard(q: seq<EspeakCallback.Entry>)
    ensures Heard(AllQueued(q)) == EspeakCallback.Samples(q)
  {
    if q == [] {
    } else {
      SamplesHeard(q[1..]);
      assert ([AsQueued(q[0])] + AllQueued(q[1..]))[1..] == AllQueued(q[1..]);
    }
  }

  /** What the callbacks of several messages queue, and what was synthesized for them. */
  function Entries(messages: seq<seq<EspeakCallback.Call>>, rate: int): seq<EspeakCallback.Entry>
  {
    if messages == [] then [] else EspeakCallback.Message(messages[0], rate, 0) + Entries(messages[1..], rate)
  }

  function Synthesized(messages: seq<seq<EspeakCallback.Call>>): seq<int>
  {
    if messages == [] then [] else EspeakCallback.Audios(messages[0]) + Synthesized(messages[1..])
  }

  ghost predicate InOrder(messages: seq<seq<EspeakCallback.Call>>)
  {
    forall calls, c | calls in messages && c in calls :: EspeakCallback.InOrder(c.events)
  }

  lemma {:induction false} MessagesAudio(messages: seq<seq<EspeakCallback.Call>>, rate: int)
    requires rate >= 0 && InOrder(messages)
    ensures EspeakCallback.Samples(Entries(messages, rate)) == Synthesized(messages)
  {
    hide EspeakCallback.Message, EspeakCallback.Audios, EspeakCallback.Samples, EspeakCallback.InOrder;
    if messages == [] {
      EspeakCallback.EventHasNoAudio(EspeakCallback.Other);
    } else {
      assert messages[0] in messages;
      EspeakCallback.MessageAudio(messages[0], rate, 0);
      assert forall calls | calls in messages[1..] :: calls in messages;
      MessagesAudio(messages[1..], rate);
      EspeakCallback.SamplesConcat(EspeakCallback.Message(messages[0], rate, 0), Entries(messages[1..], rate));
    }
  }

  /** As long as nobody stops or pauses, and the callbacks add what synth_callback queues for
      a series of messages with ordered events, the samples taken by the player are the first
      of the synthesized audio; all of them, once all was added and nothing waits. */
  lemma PlayedIsSynthesized(actions: seq<Action>, max: nat, messages: seq<seq<EspeakCallback.Call>>, rate: int)
    requires Calm(actions) && Exec(Initial(), actions, max).Some? && rate >= 0 && InOrder(messages)
    requires Added(actions) <= AllQueued(Entries(messages, rate))
    ensures var s := Exec(Initial(), actions, max).value;
            Heard(s.past.popped) <= Synthesized(messages)
            && (Added(actions) == AllQueued(Entries(messages, rate)) && s.queue == [] && Pending(s.producer) == []
                ==> Heard(s.past.popped) == Synthesized(messages))
  {
    hide Exec, Heard, Plain, Added, AllQueued, Entries, Synthesized, InOrder, Initial;
    PlayedInOrder(actions, max);
    var s := Exec(Initial(), actions, max).value;
    var played := Plain(s.past.popped);
    MessagesAudio(messages, rate);
    SamplesHeard(Entries(messages, rate));
    PlainHeard(s.past.popped);
    HeardPrefix(played, Added(actions));
    HeardPrefix(Added(actions), AllQueued(Entries(messages, rate)));
    PlainOne(Begin);
    assert played + ([] + []) == played;
  }

  // ---- runs with stops and pauses, message by message

  /** What was done for which message: the one whose text eSpeak has, the one that the
      callback under way is for, the entries that the callbacks added for each, and those
      that the player took while each was the last one accepted. */
  datatype Trace = Trace(text: nat, call: nat, added: map<nat, seq<Entry>>, played: map<nat, seq<Entry>>)

  function Get(m: map<nat, seq<Entry>>, k: nat): seq<Entry>
  {
    if k in m then m[k] else []
  }

  function Appended(m: map<nat, seq<Entry>>, k: nat, e: Entry): map<nat, seq<Entry>>
  {
    m[k := Get(m, k) + [e]]
  }

  function Record(t: Trace, s: State, a: Action): Trace
  {
    match a
    case Speak => t.(text := s.past.message + 1)
    case Call => t.(call := t.text)
    case Add(e) => t.(added := Appended(t.added, t.call, e))
    case ConsumerStep =>
      if s.consumer.Pop? && !s.stop && s.queue != [] && !s.queue[0].Begin?
      then t.(played := Appended(t.played, s.past.message, s.queue[0])) else t
    case _ => t
  }

  function Traced(t: Trace, s: State, actions: seq<Action>, max: nat): Trace
    requires Exec(s, actions, max).Some?
    decreases actions
  {
    if actions == [] then t
    else Traced(Record(t, s, actions[0]), Next(s, actions[0], max).value, actions[1..], max)
  }

  /** The trace of a run from the start. */
  function TraceOf(actions: seq<Action>, max: nat): Trace
    requires Exec(Initial(), actions, max).Some?
  {
    Traced(Trace(0, 0, map[], map[]), Initial(), actions, max)
  }

  function Waiting(s: State): seq<Entry>
  {
    Plain(s.queue) + Plain(Pending(s.producer))
  }

  /** The text and the callback are those of the message being spoken. */
  predicate Labels(t: Trace, s: State)
  {
    (s.synth ==> t.text == s.past.message) && (!Done(s.producer) ==> t.call == s.past.message)
  }

  /** For each message the first entries were played; of the one being spoken, the others
      wait unless it is being stopped. */
  ghost predicate Fits(t: Trace, s: State)
  {
    (forall k | k in t.added || k in t.played :: k <= s.past.message)
    && (forall k :: Get(t.played, k) <= Get(t.added, k))
    && (!s.stop && !s.phase.Idle? ==>
          Get(t.played, s.past.message) + Waiting(s) == Get(t.added, s.past.message))
  }

  lemma SeekerFits(t: Trace, s: State, max: nat)
    requires Labels(t, s) && Fits(t, s) && SeeksRoom(s.producer) && SeekerNext(s, max).Some?
    ensures var u := SeekerNext(s, max).value; Labels(t, u) && Fits(t, u)
  {
    hide Plain;
  }

  lemma PusherFits(t: Trace, s: State)
    requires Labels(t, s) && Fits(t, s) && !SeeksRoom(s.producer) && PusherNext(s).Some?
    ensures var u := PusherNext(s).value; Labels(t, u) && Fits(t, u)
  {
    hide Plain, Length;
    PlainOne(Begin);
    if s.producer.Push? {
      PlainConcat(s.queue, [s.producer.e]);
      assert Plain(s.queue) + Plain([s.producer.e]) == (Plain(s.queue) + Plain([s.producer.e])) + [];
    }
  }

  lemma IdlerFits(t: Trace, s: State)
    requires Labels(t, s) && Fits(t, s) && Idles(s.consumer) && IdlerNext(s).Some?
    ensures var u := IdlerNext(s).value; Labels(t, u) && Fits(t, u)
  {
    hide Plain;
  }

  /** The player takes an entry of the message being spoken. */
  lemma PopFits(t: Trace, s: State)
    requires Contents(s) && Labels(t, s) && Fits(t, s) && s.consumer.Pop? && !s.stop && s.queue != []
    ensures var u := PlayerNext(s).value;
            Labels(Record(t, s, ConsumerStep), u) && Fits(Record(t, s, ConsumerStep), u)
  {
    hide Plain, Length;
    var u := PlayerNext(s).value;
    var e, rest, m := s.queue[0], s.queue[1..], s.past.message;
    PlainConcat([e], rest);
    PlainOne(e);
    assert s.queue == [e] + rest && u.queue == rest && Pending(u.producer) == Pending(s.producer);
    assert [] + Plain(rest) == Plain(rest);
    Assoc3(Get(t.played, m), Plain([e]), Plain(rest), Plain(Pending(s.producer)));
  }

  lemma Assoc3(a: seq<Entry>, b: seq<Entry>, c: seq<Entry>, d: seq<Entry>)
    ensures a + ((b + c) + d) == (a + b) + (c + d)
  {}

  lemma PlayerFits(t: Trace, s: State)
    requires Labels(t, s) && Fits(t, s) && !Idles(s.consumer) && !s.consumer.Pop? && PlayerNext(s).Some?
    ensures var u := PlayerNext(s).value; Labels(t, u) && Fits(t, u)
  {
    hide Plain, Length;
  }

  lemma ConsumerFits(t: Trace, s: State)
    requires Contents(s) && Labels(t, s) && Fits(t, s) && ConsumerNext(s).Some?
    ensures var u := ConsumerNext(s).value;
            Labels(Record(t, s, ConsumerStep), u) && Fits(Record(t, s, ConsumerStep), u)
  {
    hide Plain, Length, Fits, Labels, IdlerNext;
    if Idles(s.consumer) {
      IdlerFits(t, s);
    } else if !s.consumer.Pop? {
      PlayerFits(t, s);
    } else if !s.stop && s.queue != [] {
      PopFits(t, s);
    } else {
      PopsNothing(t, s);
    }
  }

  lemma PopsNothing(t: Trace, s: State)
    requires Labels(t, s) && Fits(t, s) && s.consumer.Pop? && s.stop
    ensures var u := PlayerNext(s).value; Labels(t, u) && Fits(t, u)
  {
    hide Plain, Length;
  }

  lemma StopperFits(t: Trace, s: State)
    requires Stopping(s) && Labels(t, s) && Fits(t, s) && StopperNext(s).Some?
    ensures var u := StopperNext(s).value; Labels(t, u) && Fits(t, u)
  {
    hide Plain;
  }

  /** What a callback adds is of the message being spoken. */
  lemma AddFits(t: Trace, s: State, e: Entry, max: nat)
    requires Contents(s) && Labels(t, s) && Fits(t, s) && Next(s, Add(e), max).Some?
    ensures var u, a := Next(s, Add(e), max).value, Add(e);
            Labels(Record(t, s, a), u) && Fits(Record(t, s, a), u)
  {
    hide Plain;
    PlainOne(e);
    var u, m := Next(s, Add(e), max).value, s.past.message;
    assert Pending(s.producer) == [] && Pending(u.producer) == [e];
    assert Get(t.played, m) + (Plain(s.queue) + []) + [e] == Get(t.played, m) + (Plain(s.queue) + [e]);
  }

  /** A message is accepted only where nothing of the one before is left. */
  lemma SpeakFits(t: Trace, s: State, max: nat)
    requires Contents(s) && Labels(t, s) && Fits(t, s) && Next(s, Speak, max).Some?
    ensures var u := Next(s, Speak, max).value; Labels(Record(t, s, Speak), u) && Fits(Record(t, s, Speak), u)
  {
    hide Plain;
    PlainOne(Begin);
    assert s.queue == [] && Pending(s.producer) == [];
  }

  lemma OutsideFits(t: Trace, s: State, a: Action, max: nat)
    requires Contents(s) && Labels(t, s) && Fits(t, s) && Next(s, a, max).Some?
    requires !a.ProducerStep? && !a.ConsumerStep? && !a.StopperStep? && !a.Add? && !a.Speak?
    ensures var u := Next(s, a, max).value; Labels(Record(t, s, a), u) && Fits(Record(t, s, a), u)
  {
    hide Plain, ProducerNext, ConsumerNext, StopperNext;
    PlainOne(Begin);
  }

  lemma NextFits(t: Trace, s: State, a: Action, max: nat)
    requires Threads(s) && Labels(t, s) && Fits(t, s) && Next(s, a, max).Some?
    ensures var u := Next(s, a, max).value; Labels(Record(t, s, a), u) && Fits(Record(t, s, a), u)
  {
    hide Labels, Fits, Stopping, Contents, EndsLast, Served, SeekerNext, PusherNext, ConsumerNext, StopperNext;
    match a {
      case ProducerStep => if SeeksRoom(s.producer) { SeekerFits(t, s, max); } else { PusherFits(t, s); }
      case ConsumerStep => ConsumerFits(t, s);
      case StopperStep => StopperFits(t, s);
      case Add(e) => AddFits(t, s, e, max);
      case Speak => SpeakFits(t, s, max);
      case _ => OutsideFits(t, s, a, max);
    }
  }

  lemma {:induction false} TracedFits(t: Trace, s: State, actions: seq<Action>, max: nat)
    requires Inv(s, max) && Labels(t, s) && Fits(t, s) && Exec(s, actions, max).Some?
    ensures var u, v := Traced(t, s, actions, max), Exec(s, actions, max).value; Labels(u, v) && Fits(u, v)
    decreases actions
  {
    hide Next, Books, Threads, Labels, Fits, Record;
    if actions == [] {
    } else {
      NextKeeps(s, actions[0], max);
      NextFits(t, s, actions[0], max);
      TracedFits(Record(t, s, actions[0]), Next(s, actions[0], max).value, actions[1..], max);
    }
  }

  /** In every run, with any stops and pauses: the entries that the player took while a
      message was the last one accepted are the first of those that the callbacks added for
      that message.  None is of a message that was stopped before. */
  lemma PlayedOfMessage(actions: seq<Action>, max: nat, k: nat)
    requires Exec(Initial(), actions, max).Some?
    ensures var t, s := TraceOf(actions, max), Exec(Initial(), actions, max).value;
            Get(t.played, k) <= Get(t.added, k)
            && (k == s.past.message && !s.stop && !s.phase.Idle? ==>
                  Get(t.played, k) + Waiting(s) == Get(t.added, k))
  {
    hide Exec, Initial, Traced, Inv, Labels, Waiting;
    InitialInv(max);
    InitialFits();
    TracedFits(Trace(0, 0, map[], map[]), Initial(), actions, max);
  }

  lemma InitialFits()
    ensures Labels(Trace(0, 0, map[], map[]), Initial()) && Fits(Trace(0, 0, map[], map[]), Initial())
  {}

  /** So where the callbacks for a message add what synth_callback queues for it, with
      ordered events, the samples taken for it are the first of its synthesized audio. */
  lemma PlayedOfMessageIsSynthesized(actions: seq<Action>, max: nat, k: nat, calls: seq<EspeakCallback.Call>, rate: int)
    requires Exec(Initial(), actions, max).Some? && rate >= 0 && InOrder([calls])
    requires Get(TraceOf(actions, max).added, k) <= AllQueued(EspeakCallback.Message(calls, rate, 0))
    ensures Heard(Get(TraceOf(actions, max).played, k)) <= EspeakCallback.Audios(calls)
  {
    hide Exec, Heard, TraceOf, AllQueued, EspeakCallback.Message, EspeakCallback.Audios, EspeakCallback.InOrder,
         Initial;
    PlayedOfMessage(actions, max, k);
    assert calls in [calls];
    EspeakCallback.MessageAudio(calls, rate, 0);
    SamplesHeard(EspeakCallback.Message(calls, rate, 0));
    HeardPrefix(Get(TraceOf(actions, max).played, k), AllQueued(EspeakCallback.Message(calls, rate, 0)));
  }

  // ---- a stop, and a pause at a mark, end the playing of their message

  /** Nothing more is played of message m: it is being stopped, or is over. */
  predicate Over(s: State, m: nat)
  {
    m <= s.past.message && (s.past.message == m ==> s.stop || s.phase.Idle?)
  }

  lemma ProducerOver(s: State, max: nat, m: nat)
    requires Over(s, m) && ProducerNext(s, max).Some?
    ensures Over(ProducerNext(s, max).value, m)
  {
    hide Length;
  }

  lemma ConsumerOver(s: State, m: nat)
    requires Over(s, m) && ConsumerNext(s).Some?
    ensures Over(ConsumerNext(s).value, m)
  {
    hide Length;
  }

  lemma StopperOver(s: State, m: nat)
    requires Over(s, m) && StopperNext(s).Some?
    ensures Over(StopperNext(s).value, m)
  {}

  lemma NextOver(t: Trace, s: State, a: Action, max: nat, m: nat)
    requires Contents(s) && Stopping(s) && Over(s, m) && Next(s, a, max).Some?
    ensures Over(Next(s, a, max).value, m) && Get(Record(t, s, a).played, m) == Get(t.played, m)
  {
    hide ProducerNext, ConsumerNext, StopperNext;
    match a {
      case ProducerStep => ProducerOver(s, max, m);
      case ConsumerStep => ConsumerOver(s, m);
      case StopperStep => StopperOver(s, m);
      case _ =>
    }
  }

  lemma {:induction false} OverStays(t: Trace, s: State, actions: seq<Action>, max: nat, m: nat)
    requires Inv(s, max) && Over(s, m) && Exec(s, actions, max).Some?
    ensures Get(Traced(t, s, actions, max).played, m) == Get(t.played, m)
    decreases actions
  {
    hide Next, Books, Stopping, Contents, EndsLast, Served, Over, Record;
    if actions == [] {
    } else {
      NextKeeps(s, actions[0], max);
      NextOver(t, s, actions[0], max, m);
      OverStays(Record(t, s, actions[0]), Next(s, actions[0], max).value, actions[1..], max, m);
    }
  }

  /** Once a stop was accepted, nothing more is played of the message, whatever happens. */
  lemma StopIsObeyed(before: seq<Action>, after: seq<Action>, max: nat)
    requires var s := Exec(Initial(), before, max);
             s.Some? && Next(s.value, RequestStop, max).Some?
             && Exec(Next(s.value, RequestStop, max).value, after, max).Some?
    ensures var s, t := Exec(Initial(), before, max).value, TraceOf(before, max);
            var m, u := s.past.message, Next(s, RequestStop, max).value;
            Get(Traced(t, u, after, max).played, m) == Get(t.played, m)
  {
    hide Exec, Initial, Traced, Get;
    InitialInv(max);
    ExecKeeps(Initial(), before, max);
    var s := Exec(Initial(), before, max).value;
    NextKeeps(s, RequestStop, max);
    OverStays(TraceOf(before, max), Next(s, RequestStop, max).value, after, max, s.past.message);
  }

  /** The player has just reported a mark of the server while a pause is asked for, and the
      stopping thread is at rest. */
  predicate AtPause(s: State)
  {
    s.consumer == Process(IndexMark(true)) && s.phase.Speaking? && s.pause.PauseRequested?
    && (s.stopper.Resting? || s.stopper.UnlockStop?)
  }

  /** Then nothing more is played of the message: it is paused at that mark. */
  lemma PauseIsObeyed(before: seq<Action>, after: seq<Action>, max: nat)
    requires var s := Exec(Initial(), before, max);
             s.Some? && AtPause(s.value) && Next(s.value, ConsumerStep, max).Some?
             && Exec(Next(s.value, ConsumerStep, max).value, after, max).Some?
    ensures var s, t := Exec(Initial(), before, max).value, TraceOf(before, max);
            var m, u := s.past.message, Next(s, ConsumerStep, max).value;
            u.stop && u.stops == s.stops + 1 && u.pause.MarkReported?
            && Get(Traced(t, u, after, max).played, m) == Get(t.played, m)
  {
    hide Exec, Initial, Traced, Get;
    InitialInv(max);
    ExecKeeps(Initial(), before, max);
    var s := Exec(Initial(), before, max).value;
    NextKeeps(s, ConsumerStep, max);
    OverStays(TraceOf(before, max), Next(s, ConsumerStep, max).value, after, max, s.past.message);
  }
}
