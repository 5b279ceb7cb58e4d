/** The begin and the end of a message of the eSpeak module, and the marks at which it
    pauses: what the playing thread does between its entries. */
module EspeakPhases {
  import opened CStrings
  import opened EspeakQueue
  import opened EspeakQueueProperties
  import opened EspeakPlayback

  predicate HoldsBegin(c: ConsumerAt) { c == LeavePop(Some(Begin)) || c == Process(Begin) }

  /** Until the begin of a message was processed, it is the next entry: about to be pushed,
      first in the queue, or taken. */
  predicate BeginComes(s: State)
  {
    s.phase.BeforePlay? && !s.stop ==>
      ((s.producer.WantPush? || s.producer.Push?) && s.producer.e.Begin? && s.queue == [] && !Holds(s.consumer))
      || (s.queue != [] && s.queue[0].Begin? && !Holds(s.consumer))
      || HoldsBegin(s.consumer)
  }

  /** A message is spoken only when its begin was reported. */
  predicate SpokenBegun(s: State)
  {
    s.phase.Speaking? ==> s.past.begun != [] && s.past.begun[|s.past.begun| - 1] == s.past.message
  }

  predicate Phases(s: State) { BeginComes(s) && SpokenBegun(s) }

  lemma ProducerPhases(s: State, max: nat)
    requires Contents(s) && Phases(s) && ProducerNext(s, max).Some?
    ensures Phases(ProducerNext(s, max).value)
  {
    hide Length;
  }

  lemma IdlerPhases(s: State)
    requires Phases(s) && Idles(s.consumer) && IdlerNext(s).Some?
    ensures Phases(IdlerNext(s).value)
  {}

  lemma PlayerPhases(s: State)
    requires Phases(s) && !Idles(s.consumer) && PlayerNext(s).Some?
    ensures Phases(PlayerNext(s).value)
  {
    hide Length;
  }

  lemma StopperPhases(s: State)
    requires Stopping(s) && Phases(s) && StopperNext(s).Some?
    ensures Phases(StopperNext(s).value)
  {}

  lemma NextPhases(s: State, a: Action, max: nat)
    requires Contents(s) && Stopping(s) && Phases(s) && Next(s, a, max).Some?
    ensures Phases(Next(s, a, max).value)
  {
    hide ProducerNext, IdlerNext, PlayerNext, StopperNext;
    match a {
      case ProducerStep => ProducerPhases(s, max);
      case ConsumerStep => if Idles(s.consumer) { IdlerPhases(s); } else { PlayerPhases(s); }
      case StopperStep => StopperPhases(s);
      case _ =>
    }
  }

  /** What was played of a message was played after its begin was reported; and when its
      end was played, it is over once the player has processed it, unless it is stopped. */
  ghost predicate Framed(t: Trace, s: State)
  {
    (forall k | Get(t.played, k) != [] :: k in s.past.begun)
    && (End in Get(t.played, s.past.message) ==> s.phase.Idle? || s.stop || HoldsEnd(s.consumer))
  }

  lemma ProducerFramed(t: Trace, s: State, max: nat)
    requires Contents(s) && Framed(t, s) && ProducerNext(s, max).Some?
    ensures Framed(t, ProducerNext(s, max).value)
  {
    hide Length;
  }

  lemma IdlerFramed(t: Trace, s: State)
    requires Framed(t, s) && Idles(s.consumer) && IdlerNext(s).Some?
    ensures Framed(t, IdlerNext(s).value)
  {}

  /** An entry other than the begin is taken only while the message is spoken. */
  lemma PopFramed(t: Trace, s: State)
    requires Contents(s) && Phases(s) && Framed(t, s) && EndsLast(s)
    requires s.consumer.Pop? && !s.stop && s.queue != []
    ensures Framed(Record(t, s, ConsumerStep), PlayerNext(s).value)
  {
    hide Length;
    var m, e := s.past.message, s.queue[0];
    if !e.Begin? {
      assert s.phase.Speaking?;
      assert m in s.past.begun;
    }
  }

  lemma ProcessFramed(t: Trace, s: State)
    requires Contents(s) && Phases(s) && Framed(t, s)
    requires !Idles(s.consumer) && (s.consumer.Pop? ==> s.stop) && PlayerNext(s).Some?
    ensures Framed(t, PlayerNext(s).value)
  {
    hide Length;
  }

  lemma StopperFramed(t: Trace, s: State)
    requires Stopping(s) && Framed(t, s) && StopperNext(s).Some?
    ensures Framed(t, StopperNext(s).value)
  {}

  lemma NextFramed(t: Trace, s: State, a: Action, max: nat)
    requires Threads(s) && Phases(s) && Fits(t, s) && Framed(t, s) && Next(s, a, max).Some?
    ensures Framed(Record(t, s, a), Next(s, a, max).value)
  {
    hide ProducerNext, IdlerNext, PlayerNext, StopperNext, Phases, Contents, EndsLast, Stopping, Served;
    match a {
      case ProducerStep => ProducerFramed(t, s, max);
      case ConsumerStep =>
        if Idles(s.consumer) {
          IdlerFramed(t, s);
        } else if s.consumer.Pop? && !s.stop {
          PopNeedsEntry(s);
          PopFramed(t, s);
        } else {
          ProcessFramed(t, s);
        }
      case StopperStep => StopperFramed(t, s);
      case Speak => NewUnplayed(t, s);
      case _ =>
    }
  }

  lemma PopNeedsEntry(s: State)
    requires s.consumer.Pop? && !s.stop && PlayerNext(s).Some?
    ensures s.queue != []
  {}

  lemma NewUnplayed(t: Trace, s: State)
    requires Fits(t, s)
    ensures Get(t.played, s.past.message + 1) == []
  {
    hide Waiting;
  }

  lemma {:induction false} ExecFramed(t: Trace, s: State, actions: seq<Action>, max: nat)
    requires Inv(s, max) && Phases(s) && Labels(t, s) && Fits(t, s) && Framed(t, s) && Exec(s, actions, max).Some?
    ensures var u, v := Traced(t, s, actions, max), Exec(s, actions, max).value; Framed(u, v) && Phases(v)
    decreases actions
  {
    hide Next, Books, Stopping, Contents, EndsLast, Served, Labels, Fits, Record, Framed, Phases;
    if actions == [] {
    } else {
      NextKeeps(s, actions[0], max);
      NextPhases(s, actions[0], max);
      NextFits(t, s, actions[0], max);
      NextFramed(t, s, actions[0], max);
      ExecFramed(Record(t, s, actions[0]), Next(s, actions[0], max).value, actions[1..], max);
    }
  }

  lemma InitialFramed()
    ensures Phases(Initial()) && Framed(Trace(0, 0, map[], map[]), Initial())
  {}

  /** In every run: of which messages anything but the begin was played, of those the begin
      was reported; the one being spoken is the one reported last; and when the end of the
      last message accepted was played, the module is idle, or being stopped, or the player
      is just about to process that end. */
  lemma MessagesAreFramed(actions: seq<Action>, max: nat)
    requires Exec(Initial(), actions, max).Some?
    ensures var t, s := TraceOf(actions, max), Exec(Initial(), actions, max).value;
            (forall k | Get(t.played, k) != [] :: k in s.past.begun)
            && (s.phase.Speaking? ==> s.past.begun != [] && s.past.begun[|s.past.begun| - 1] == s.past.message)
            && (End in Get(t.played, s.past.message) ==>
                  s.phase.Idle? || s.stop || s.consumer == LeavePop(Some(End)) || s.consumer == Process(End))
  {
    hide Exec, Initial, Traced, Inv, Labels, Fits, Get, BeginComes;
    InitialInv(max);
    InitialFits();
    InitialFramed();
    ExecFramed(Trace(0, 0, map[], map[]), Initial(), actions, max);
  }

  /** A mark stops the playing if and only if the message is spoken, a pause was asked for,
      the stopping thread is at rest, and the mark is one of the server; otherwise the player
      just goes on. */
  lemma MarkPausesIff(s: State, ours: bool, max: nat)
    requires s.consumer == Process(IndexMark(ours)) && !s.stop && Next(s, ConsumerStep, max).Some?
    ensures var t := Next(s, ConsumerStep, max).value;
            (t.stop <==> s.phase.Speaking? && s.pause.PauseRequested? && (s.stopper.Resting? || s.stopper.UnlockStop?)
                         && ours)
            && (t.stop ==> t == s.(stop := true, pause := MarkReported, stops := s.stops + 1, consumer := TryPlay))
            && (!t.stop ==> t == s.(consumer := WantPop))
  {
    hide Length;
  }

  // ---- asking for a pause

  /** Whether a pause was asked for since the last message was accepted. */
  function Asked(actions: seq<Action>, before: bool): bool
    decreases actions
  {
    if actions == [] then before
    else Asked(actions[1..], if actions[0].Speak? then false else if actions[0].RequestPause? then true else before)
  }

  predicate PauseAsked(s: State, asked: bool)
  {
    s.pause.PauseRequested? ==> asked || s.phase.Idle?
  }

  predicate PauseKept(s: State, t: State)
  {
    s.pause.PauseRequested? ==> t.pause.PauseRequested? || t.pause.MarkReported? || t.phase.Idle?
  }

  lemma ProducerAsked(s: State, max: nat, asked: bool)
    requires Contents(s) && PauseAsked(s, asked) && ProducerNext(s, max).Some?
    ensures var t := ProducerNext(s, max).value; PauseAsked(t, asked) && PauseKept(s, t)
  {
    hide Length;
  }

  lemma ConsumerAsked(s: State, asked: bool)
    requires PauseAsked(s, asked) && ConsumerNext(s).Some?
    ensures var t := ConsumerNext(s).value; PauseAsked(t, asked) && PauseKept(s, t)
  {
    hide Length;
  }

  lemma StopperAsked(s: State, asked: bool)
    requires PauseAsked(s, asked) && StopperNext(s).Some?
    ensures var t := StopperNext(s).value; PauseAsked(t, asked) && PauseKept(s, t)
  {}

  lemma NextAsked(s: State, a: Action, max: nat, asked: bool)
    requires Contents(s) && PauseAsked(s, asked) && Next(s, a, max).Some?
    ensures PauseAsked(Next(s, a, max).value, if a.Speak? then false else if a.RequestPause? then true else asked)
    ensures !a.Speak? ==> PauseKept(s, Next(s, a, max).value)
  {
    hide ProducerNext, ConsumerNext, StopperNext;
    match a {
      case ProducerStep => ProducerAsked(s, max, asked);
      case ConsumerStep => ConsumerAsked(s, asked);
      case StopperStep => StopperAsked(s, asked);
      case _ =>
    }
  }

  lemma {:induction false} ExecAsked(s: State, actions: seq<Action>, max: nat, asked: bool)
    requires Inv(s, max) && PauseAsked(s, asked) && Exec(s, actions, max).Some?
    ensures PauseAsked(Exec(s, actions, max).value, Asked(actions, asked))
    decreases actions
  {
    hide Next, Books, Stopping, Contents, EndsLast, Served, PauseAsked;
    if actions == [] {
    } else {
      var a := actions[0];
      NextKeeps(s, a, max);
      NextAsked(s, a, max, asked);
      ExecAsked(Next(s, a, max).value, actions[1..], max,
                if a.Speak? then false else if a.RequestPause? then true else asked);
    }
  }

  /** In every run, a message is only paused at a mark if a pause was asked for since it was
      accepted. */
  lemma PauseWasAsked(actions: seq<Action>, max: nat)
    requires Exec(Initial(), actions, max).Some?
    ensures var s := Exec(Initial(), actions, max).value;
            s.pause.PauseRequested? && !s.phase.Idle? ==> Asked(actions, false)
  {
    hide Exec, Initial, Inv, Asked;
    InitialInv(max);
    ExecAsked(Initial(), actions, max, false) by { InitialUnasked(); }
  }

  lemma InitialUnasked()
    ensures PauseAsked(Initial(), false)
  {}

  /** A request for a pause is recorded unless one was, or a stop; it waits for a begin that
      is being reported. */
  lemma RequestPauseIff(s: State, max: nat)
    ensures Next(s, RequestPause, max) ==
            if !Beginning(s.producer) && s.pause.PauseOff? && !s.stop then Some(s.(pause := PauseRequested)) else None
  {}

  /** The end of a message that is spoken ends it, with any pause that was asked for, and
      nothing else; the end of a stopped one is left to the stop. */
  lemma EndIs(s: State, max: nat)
    requires s.consumer == Process(End) && Next(s, ConsumerStep, max).Some?
    ensures Next(s, ConsumerStep, max).value ==
            if !s.phase.Speaking? then s.(consumer := WantPop)
            else if s.stop then s.(consumer := TryPlay)
            else s.(phase := Idle, pause := PauseOff, consumer := TryPlay)
  {}

  /** The player, woken, looks for an entry if and only if a message has begun. */
  lemma WokenPlayer(s: State, max: nat)
    requires s.consumer.CheckState?
    ensures Next(s, ConsumerStep, max) ==
            Some(s.(consumer := if s.phase.BeforePlay? || s.phase.Speaking? then WantPop else TryPlay))
  {}
}
