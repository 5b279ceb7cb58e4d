/** The handshake of a threaded client (src/api/c/libopentts.c) between a thread that
    sends a command and the thread that reads the socket, over two mutexes and two
    condition variables.

    One caller is active at a time: ssip_mutex is held around every send.  A step is one
    call on a mutex or condition variable, or one access to the shared connection. */
module Handshake {
  import opened CStrings

  /** A complete message of the server: the number at its head, and its text. */
  datatype Message = Message(code: int, text: string)

  predicate IsEvent(m: Message) { 700 <= m.code < 800 }

  datatype Owner = Nobody | Caller | Events

  /** Where the caller is in spd_send_data_wo_mutex. */
  datatype CallerAt =
    | Idle
    | LockReady(wfr: bool)
    | Write(wfr: bool)
    | CondWait            // about to wait for cond_reply_ready, the mutex held
    | Waiting
    | Woken               // signalled, about to take mutex_reply_ready back
    | UnlockReady
    | ReadReply
    | FreeReply
    | LockAck
    | SignalAck
    | UnlockAck
    | UnlockNoReply

  /** Where the other thread is in spd_events_handler. */
  datatype EventsAt =
    | GetReply
    | TakeReady(m: Message)
    | StoreReply(m: Message)
    | SignalReady
    | TakeAck
    | ReleaseReady
    | WaitAck             // about to wait for cond_reply_ack, the mutex held
    | Asleep
    | Signalled
    | ReleaseAck

  /** connection->reply: never set, pointing to memory that was freed, or to a reply. */
  datatype Cell = Unset | Freed | Stored(m: Message)

  /** socket is what the server has sent and the client has not read; pending counts the
      commands the server has not answered.  sent, answers, received, emitted and called
      record the awaited commands, the server's replies, those the callers got, the
      server's events, and those a callback was made for. */
  datatype State = State(
    caller: CallerAt, events: EventsAt, ready: Owner, ack: Owner,
    reply: Cell,
    copy: Option<Message>,   // the caller's copy of it
    socket: seq<Message>, pending: nat,
    sent: nat, answers: seq<Message>, received: seq<Message>, emitted: seq<Message>, called: seq<Message>)

  function Initial(): State
  {
    State(Idle, GetReply, Nobody, Nobody, Unset, None, [], 0, 0, [], [], [], [])
  }

  /** The next step of the caller; None where it is blocked, waits or is idle. */
  function CallerNext(s: State): Option<State>
  {
    match s.caller
    case Idle => None
    case LockReady(wfr) => if s.ready.Nobody? then Some(s.(ready := Caller, caller := Write(wfr))) else None
    case Write(wfr) =>
      Some(if wfr then s.(pending := s.pending + 1, sent := s.sent + 1, caller := CondWait)
           else s.(caller := UnlockNoReply))
    case CondWait => Some(s.(ready := Nobody, caller := Waiting))
    case Waiting => None
    case Woken => if s.ready.Nobody? then Some(s.(ready := Caller, caller := UnlockReady)) else None
    case UnlockReady => Some(s.(ready := Nobody, caller := ReadReply))
    case ReadReply =>
      (match s.reply
       case Unset => Some(s.(caller := Idle))   // taken for a broken connection
       case Freed => None                       // undefined behaviour
       case Stored(m) => Some(s.(copy := Some(m), caller := FreeReply)))
    case FreeReply => Some(s.(reply := Freed, caller := LockAck))
    case LockAck => if s.ack.Nobody? then Some(s.(ack := Caller, caller := SignalAck)) else None
    case SignalAck =>
      Some(s.(events := if s.events.Asleep? then Signalled else s.events, caller := UnlockAck))
    case UnlockAck =>
      Some(s.(ack := Nobody, caller := Idle,
              received := s.received + (if s.copy.Some? then [s.copy.value] else [])))
    case UnlockNoReply => Some(s.(ready := Nobody, caller := Idle))
  }

  /** The next step of the thread that reads the socket. */
  function EventsNext(s: State): Option<State>
  {
    match s.events
    case GetReply =>
      if s.socket == [] then None
      else if IsEvent(s.socket[0]) then Some(s.(socket := s.socket[1..], called := s.called + [s.socket[0]]))
      else Some(s.(socket := s.socket[1..], events := TakeReady(s.socket[0])))
    case TakeReady(m) => if s.ready.Nobody? then Some(s.(ready := Events, events := StoreReply(m))) else None
    case StoreReply(m) => Some(s.(reply := Stored(m), events := SignalReady))
    case SignalReady =>
      Some(s.(caller := if s.caller.Waiting? then Woken else s.caller, events := TakeAck))
    case TakeAck => if s.ack.Nobody? then Some(s.(ack := Events, events := ReleaseReady)) else None
    case ReleaseReady => Some(s.(ready := Nobody, events := WaitAck))
    case WaitAck => Some(s.(ack := Nobody, events := Asleep))
    case Asleep => None
    case Signalled => if s.ack.Nobody? then Some(s.(ack := Events, events := ReleaseAck)) else None
    case ReleaseAck => Some(s.(ack := Nobody, events := GetReply))
  }

  datatype Action =
    | Send(wfr: bool)      // a client thread sends, waiting for a reply or not
    | CallerStep
    | EventsStep
    | Answer(m: Message)   // the server answers a command
    | Emit(m: Message)     // the server reports an event
    | Spurious             // the caller's wait returns without a signal
    | SpuriousAck          // ... or the wait of the other thread

  function Next(s: State, a: Action): Option<State>
  {
    match a
    case Send(wfr) => if s.caller.Idle? then Some(s.(caller := LockReady(wfr))) else None
    case CallerStep => CallerNext(s)
    case EventsStep => EventsNext(s)
    case Answer(m) =>
      if s.pending > 0 && !IsEvent(m)
      then Some(s.(pending := s.pending - 1, socket := s.socket + [m], answers := s.answers + [m]))
      else None
    case Emit(m) =>
      if IsEvent(m) then Some(s.(socket := s.socket + [m], emitted := s.emitted + [m])) else None
    case Spurious => if s.caller.Waiting? then Some(s.(caller := Woken)) else None
    case SpuriousAck => if s.events.Asleep? then Some(s.(events := Signalled)) else None
  }

  /** The state after a run; None if some step was not possible. */
  function Exec(s: State, actions: seq<Action>): Option<State>
    decreases actions
  {
    if actions == [] then Some(s)
    else match Next(s, actions[0])
         case None => None
         case Some(t) => Exec(t, actions[1..])
  }

  /** The waits of a run return without a signal only while the events thread holds the
      mutex, that is, while it stores the reply. */
  predicate Timely(s: State, actions: seq<Action>)
    decreases actions
  {
    actions == []
    || ((actions[0].Spurious? ==> s.ready.Events?)
        && (Next(s, actions[0]).Some? ==> Timely(Next(s, actions[0]).value, actions[1..])))
  }

  /** In particular, a run in which no wait returns without a signal is timely. */
  lemma {:induction false} SignalledIsTimely(s: State, actions: seq<Action>)
    requires Spurious !in actions
    ensures Timely(s, actions)
    decreases actions
  {
    hide Next;
    if actions == [] {
    } else if Next(s, actions[0]).Some? {
      SignalledIsTimely(Next(s, actions[0]).value, actions[1..]);
    }
  }

  // ---- the invariant

  /** The messages of one kind, in order. */
  function Only(ms: seq<Message>, event: bool): seq<Message>
  {
    if ms == [] then []
    else (if IsEvent(ms[0]) == event then [ms[0]] else []) + Only(ms[1..], event)
  }

  lemma OnlyCons(m: Message, ms: seq<Message>, event: bool)
    ensures Only([m] + ms, event) == (if IsEvent(m) == event then [m] else []) + Only(ms, event)
    ensures Only([], event) == []
  {
    hide IsEvent;
    assert ([m] + ms)[1..] == ms;
  }

  lemma {:induction false} OnlyAppend(ms: seq<Message>, m: Message, event: bool)
    ensures Only(ms + [m], event) == Only(ms, event) + (if IsEvent(m) == event then [m] else [])
  {
    hide *;
    var x := if IsEvent(m) == event then [m] else [];
    if ms == [] {
      OnlyCons(m, [], event);
      assert ms + [m] == [m] + [] && x + [] == [] + x;
    } else {
      var h := if IsEvent(ms[0]) == event then [ms[0]] else [];
      assert ms == [ms[0]] + ms[1..] && ms + [m] == [ms[0]] + (ms[1..] + [m]);
      OnlyCons(ms[0], ms[1..], event);
      OnlyCons(ms[0], ms[1..] + [m], event);
      OnlyAppend(ms[1..], m, event);
      assert (h + Only(ms[1..], event)) + x == h + (Only(ms[1..], event) + x);
    }
  }

  predicate CallerHoldsReady(c: CallerAt) { c.Write? || c.CondWait? || c.UnlockReady? || c.UnlockNoReply? }
  predicate CallerHoldsAck(c: CallerAt) { c.SignalAck? || c.UnlockAck? }
  predicate EventsHoldReady(e: EventsAt) { e.StoreReply? || e.SignalReady? || e.TakeAck? || e.ReleaseReady? }
  predicate EventsHoldAck(e: EventsAt) { e.ReleaseReady? || e.WaitAck? || e.ReleaseAck? }

  /** Each mutex is owned by the thread whose position says so. */
  predicate Locks(s: State)
  {
    (s.ready.Caller? <==> CallerHoldsReady(s.caller)) && (s.ready.Events? <==> EventsHoldReady(s.events))
    && (s.ack.Caller? <==> CallerHoldsAck(s.caller)) && (s.ack.Events? <==> EventsHoldAck(s.events))
  }

  /** The caller has written its command and not yet been signalled. */
  predicate Awaiting(c: CallerAt) { c.CondWait? || c.Waiting? }

  /** The caller was signalled and has not read the reply. */
  predicate Unread(c: CallerAt) { c.Woken? || c.UnlockReady? || c.ReadReply? }

  predicate Acknowledging(c: CallerAt) { c.FreeReply? || c.LockAck? || c.SignalAck? }

  predicate Between(c: CallerAt) { c.Idle? || c.LockReady? || c.Write? || c.UnlockNoReply? }

  /** The events thread holds a reply that it has not signalled. */
  predicate Holding(e: EventsAt) { e.TakeReady? || e.StoreReply? || e.SignalReady? }

  /** Which positions of the two threads go together. */
  predicate Positions(s: State)
  {
    match s.events
    case GetReply => true
    case TakeReady(_) => Awaiting(s.caller)
    case StoreReply(_) => s.caller.Waiting? || s.caller.Woken?
    case SignalReady => s.caller.Waiting? || s.caller.Woken?
    case TakeAck => s.caller.Woken?
    case ReleaseReady => s.caller.Woken?
    case WaitAck => Unread(s.caller) || s.caller.FreeReply? || s.caller.LockAck?
    case Asleep => Unread(s.caller) || Acknowledging(s.caller)
    case Signalled => true
    case ReleaseAck => true
  }

  /** As long as the events thread never woke without a signal, it goes on only when the
      caller has read the reply. */
  predicate Acknowledged(s: State)
  {
    match s.events
    case GetReply => Between(s.caller) || Awaiting(s.caller)
    case Signalled => s.caller.UnlockAck? || Between(s.caller) || Awaiting(s.caller)
    case ReleaseAck => Between(s.caller) || Awaiting(s.caller)
    case _ => true
  }

  /** The reply to the latest command is at one place only: owed by the server, on the
      socket, in the hands of the events thread, in the connection or copied. */
  ghost predicate OneReply(s: State)
  {
    var n := |s.received|;
    s.received <= s.answers
    && (s.reply.Stored? ==> s.events.SignalReady? || Unread(s.caller) || s.caller.FreeReply?)
    && (if Between(s.caller)
        then s.sent == n && s.pending == 0 && s.answers == s.received && Only(s.socket, false) == []
        else
          s.sent == n + 1 && s.pending + |s.answers| == n + 1
          && (s.pending == 1 ==> Awaiting(s.caller) && !Holding(s.events) && Only(s.socket, false) == [])
          && (s.pending == 0 ==>
                (Awaiting(s.caller) && !Holding(s.events) ==> Only(s.socket, false) == [s.answers[n]])
                && (Holding(s.events) ==> Only(s.socket, false) == [])
                && (s.events.TakeReady? || s.events.StoreReply? ==> s.events.m == s.answers[n])
                && (s.events.SignalReady? || (Unread(s.caller) && !s.events.StoreReply?) ==>
                      s.reply == Stored(s.answers[n]))
                && (Acknowledging(s.caller) || s.caller.UnlockAck? ==> s.copy == Some(s.answers[n]))
                && (!Awaiting(s.caller) ==> Only(s.socket, false) == [])))
  }

  ghost predicate Histories(s: State)
  {
    (forall m | m in s.answers :: !IsEvent(m)) && s.called + Only(s.socket, true) == s.emitted
  }

  ghost predicate Inv(s: State)
  {
    Locks(s) && Positions(s) && OneReply(s) && Histories(s)
  }

  lemma InitialInv()
    ensures Inv(Initial()) && Acknowledged(Initial())
  {}

  lemma ReplyIsThere(s: State)
    requires Inv(s) && s.caller.ReadReply?
    ensures s.reply.Stored?
  {
    hide Only, IsEvent, Histories;
  }

  lemma CallerKeepsPositions(s: State)
    requires Inv(s) && CallerNext(s).Some?
    ensures var t := CallerNext(s).value; Locks(t) && Positions(t) && Histories(t)
  {
    hide Only, IsEvent, OneReply;
    if s.caller.ReadReply? {
      ReplyIsThere(s);
    }
  }

  lemma CallerKeepsReply(s: State)
    requires Inv(s) && CallerNext(s).Some?
    ensures OneReply(CallerNext(s).value)
  {
    hide Only, IsEvent, Histories;
    var n := |s.received|;
    assert |s.answers| == n + 1 ==> s.answers == s.answers[..n] + [s.answers[n]];
  }

  lemma CallerKeeps(s: State)
    requires Inv(s) && CallerNext(s).Some?
    ensures Inv(CallerNext(s).value)
  {
    hide *;
    CallerKeepsPositions(s);
    CallerKeepsReply(s);
    InvDef(CallerNext(s).value);
  }

  lemma InvDef(s: State)
    ensures Inv(s) <==> Locks(s) && Positions(s) && OneReply(s) && Histories(s)
  {
    hide Locks, Positions, OneReply, Histories;
  }

  lemma SocketHead(s: State)
    requires s.socket != []
    ensures Only(s.socket, false) == (if IsEvent(s.socket[0]) then [] else [s.socket[0]]) + Only(s.socket[1..], false)
    ensures Only(s.socket, true) == (if IsEvent(s.socket[0]) then [s.socket[0]] else []) + Only(s.socket[1..], true)
  {}

  lemma EventsKeepPositions(s: State)
    requires Inv(s) && EventsNext(s).Some?
    ensures var t := EventsNext(s).value; Locks(t) && Positions(t)
  {
    hide Only, IsEvent, Histories;
    if s.events.GetReply? {
      SocketHead(s);
    }
  }

  /** The events thread takes a reply from the socket. */
  lemma ReplyTaken(s: State)
    requires Inv(s) && s.events.GetReply? && s.socket != [] && !IsEvent(s.socket[0])
    ensures OneReply(EventsNext(s).value)
  {
    hide Only, IsEvent, Histories;
    SocketHead(s);
    var replies := Only(s.socket[1..], false);
    assert Only(s.socket, false) == [s.socket[0]] + replies;
    assert |Only(s.socket, false)| == 1 + |replies|;
    assert Only(s.socket, false)[0] == s.socket[0];
    assert |replies| == 0 ==> replies == [];
  }

  lemma EventsKeepReply(s: State)
    requires Inv(s) && EventsNext(s).Some?
    ensures OneReply(EventsNext(s).value)
  {
    hide Only, IsEvent, Histories;
    if s.events.GetReply? {
      if IsEvent(s.socket[0]) {
        SocketHead(s);
        assert [] + Only(s.socket[1..], false) == Only(s.socket[1..], false);
      } else {
        ReplyTaken(s);
      }
    }
  }

  lemma EventsKeepHistories(s: State)
    requires Inv(s) && EventsNext(s).Some?
    ensures Histories(EventsNext(s).value)
  {
    hide Only, IsEvent, OneReply, Locks, Positions;
    if s.events.GetReply? {
      SocketHead(s);
      var rest := Only(s.socket[1..], true);
      assert s.called + ([s.socket[0]] + rest) == (s.called + [s.socket[0]]) + rest;
      assert [] + rest == rest;
    }
  }

  lemma EventsKeep(s: State)
    requires Inv(s) && EventsNext(s).Some?
    ensures Inv(EventsNext(s).value)
  {
    hide *;
    EventsKeepPositions(s);
    EventsKeepReply(s);
    EventsKeepHistories(s);
    InvDef(EventsNext(s).value);
  }

  lemma ServerKeeps(s: State, a: Action)
    requires Inv(s) && (a.Answer? || a.Emit?) && Next(s, a).Some?
    ensures Inv(Next(s, a).value)
  {
    hide Only;
    OnlyAppend(s.socket, a.m, true);
    OnlyAppend(s.socket, a.m, false);
    var t := Next(s, a).value;
    assert s.called + (Only(s.socket, true) + [a.m]) == (s.called + Only(s.socket, true)) + [a.m];
  }

  lemma SpuriousKeeps(s: State)
    requires Inv(s) && s.caller.Waiting? && s.ready.Events?
    ensures Inv(s.(caller := Woken))
  {
    hide Only, IsEvent;
  }

  lemma SpuriousAckKeeps(s: State)
    requires Inv(s) && s.events.Asleep?
    ensures Inv(s.(events := Signalled))
  {
    hide Only, IsEvent;
  }

  /** The second part of the order of the threads. */
  lemma AcknowledgedNext(s: State, a: Action)
    requires Inv(s) && Acknowledged(s) && Next(s, a).Some?
    requires !a.SpuriousAck? && (a.Spurious? ==> s.ready.Events?)
    ensures Acknowledged(Next(s, a).value)
  {
    hide Only, IsEvent, OneReply, Histories;
  }

  lemma {:induction false} AcknowledgedExec(s: State, actions: seq<Action>)
    requires Inv(s) && Acknowledged(s) && Exec(s, actions).Some? && Timely(s, actions) && SpuriousAck !in actions
    ensures Acknowledged(Exec(s, actions).value)
    decreases actions
  {
    hide Inv, Next, Acknowledged;
    if actions == [] {
    } else {
      NextKeeps(s, actions[0]);
      AcknowledgedNext(s, actions[0]);
      AcknowledgedExec(Next(s, actions[0]).value, actions[1..]);
    }
  }

  lemma NextKeeps(s: State, a: Action)
    requires Inv(s) && Next(s, a).Some? && (a.Spurious? ==> s.ready.Events?)
    ensures Inv(Next(s, a).value)
  {
    hide Only, IsEvent, CallerNext, EventsNext;
    match a {
      case Send(wfr) =>
      case CallerStep => CallerKeeps(s);
      case EventsStep => EventsKeep(s);
      case Spurious => SpuriousKeeps(s);
      case SpuriousAck => SpuriousAckKeeps(s);
      case _ => ServerKeeps(s, a);
    }
  }

  lemma {:induction false} ExecKeeps(s: State, actions: seq<Action>)
    requires Inv(s) && Exec(s, actions).Some? && Timely(s, actions)
    ensures Inv(Exec(s, actions).value)
    decreases actions
  {
    hide Inv, Next;
    if actions == [] {
    } else {
      NextKeeps(s, actions[0]);
      ExecKeeps(Next(s, actions[0]).value, actions[1..]);
    }
  }

  // ---- what the invariant gives

  /** The caller is about to read a reply that is not there. */
  predicate ReplyMissing(s: State) { s.caller.ReadReply? && !s.reply.Stored? }

  predicate Blocked(s: State)
  {
    CallerNext(s).None? && EventsNext(s).None?
  }

  /** The two threads never deadlock and no wake-up is lost: where neither can take a
      step, nothing is locked, nothing is on the socket, and the caller either waits for a
      reply that the server still owes, or is done with all its commands. */
  lemma NoDeadlock(actions: seq<Action>)
    requires Exec(Initial(), actions).Some? && Timely(Initial(), actions) && Blocked(Exec(Initial(), actions).value)
    ensures var s := Exec(Initial(), actions).value;
            s.events.GetReply? && s.ready.Nobody? && s.ack.Nobody? && s.socket == []
            && ((s.caller.Waiting? && s.pending == 1) || (s.caller.Idle? && s.pending == 0))
  {
    hide Exec, Timely, Initial, Histories;
    InitialInv();
    ExecKeeps(Initial(), actions);
    var s := Exec(Initial(), actions).value;
    assert Inv(s);
  }

  /** A signal is given only while the other thread waits for it, unless that has woken
      without one. */
  lemma SignalsArrive(actions: seq<Action>)
    requires Exec(Initial(), actions).Some? && Timely(Initial(), actions)
    ensures var s := Exec(Initial(), actions).value;
            (s.events.SignalReady? ==> s.caller.Waiting? || s.caller.Woken?)
            && (SpuriousAck !in actions ==> (s.caller.SignalAck? ==> s.events.Asleep?))
  {
    hide Exec, Timely, Initial, OneReply, Histories;
    InitialInv();
    ExecKeeps(Initial(), actions);
    if SpuriousAck !in actions {
      AcknowledgedExec(Initial(), actions);
    }
  }

  /** The shared reply is written only while the caller waits or cannot go on without the
      mutex; and what the caller reads is there. */
  lemma NoRace(actions: seq<Action>)
    requires Exec(Initial(), actions).Some? && Timely(Initial(), actions)
    ensures var s := Exec(Initial(), actions).value;
            (s.events.StoreReply? ==> s.caller.Waiting? || (s.caller.Woken? && s.ready.Events?))
            && !ReplyMissing(s)
  {
    hide Exec, Timely, Initial, Histories;
    InitialInv();
    ExecKeeps(Initial(), actions);
  }

  /** Whenever a caller has finished, the n-th awaited command has got the server's n-th
      reply, for every n; none of them is an event. */
  lemma RepliesMatch(actions: seq<Action>)
    requires Exec(Initial(), actions).Some? && Timely(Initial(), actions)
    ensures var s := Exec(Initial(), actions).value;
            s.received <= s.answers && |s.received| <= s.sent <= |s.received| + 1
            && (s.caller.Idle? ==> |s.received| == s.sent && s.received == s.answers)
            && forall m | m in s.received :: !IsEvent(m)
  {
    hide Exec, Timely, Initial, IsEvent;
    InitialInv();
    ExecKeeps(Initial(), actions);
    var s := Exec(Initial(), actions).value;
    assert forall m | m in s.received :: m in s.answers;
  }

  /** Callbacks are made for the server's events, in their order. */
  lemma CallbacksInOrder(actions: seq<Action>)
    requires Exec(Initial(), actions).Some? && Timely(Initial(), actions)
    ensures var s := Exec(Initial(), actions).value;
            s.called <= s.emitted && (s.socket == [] ==> s.called == s.emitted)
  {
    hide Exec, Timely, Initial, IsEvent, OneReply, Locks, Positions;
    InitialInv();
    ExecKeeps(Initial(), actions);
  }

  // ---- every command comes to its end

  function CallerRank(c: CallerAt): nat
  {
    match c
    case LockReady(_) => 12
    case Write(_) => 11
    case CondWait => 10
    case Waiting => 9
    case Woken => 8
    case UnlockReady => 7
    case ReadReply => 6
    case FreeReply => 5
    case LockAck => 4
    case SignalAck => 3
    case UnlockAck => 2
    case UnlockNoReply => 1
    case Idle => 0
  }

  function EventsRank(e: EventsAt): nat
  {
    match e
    case TakeReady(_) => 9
    case StoreReply(_) => 8
    case SignalReady => 7
    case TakeAck => 6
    case ReleaseReady => 5
    case WaitAck => 4
    case Asleep => 3
    case Signalled => 2
    case ReleaseAck => 1
    case GetReply => 0
  }

  function Rank(s: State): nat
  {
    CallerRank(s.caller) + EventsRank(s.events) + 10 * |s.socket|
  }

  /** The steps of a run that the two threads take in a send. */
  function ThreadSteps(actions: seq<Action>): nat
  {
    if actions == [] then 0
    else (if actions[0].CallerStep? || actions[0].EventsStep? then 1 else 0) + ThreadSteps(actions[1..])
  }

  /** What sends and messages of the server add to the work. */
  function Work(actions: seq<Action>): nat
  {
    if actions == [] then 0
    else (match actions[0]
          case Send(_) => 12
          case Answer(_) => 10
          case Emit(_) => 10
          case _ => 0) + Work(actions[1..])
  }

  /** No thread runs in circles: the steps of a run are bounded by the commands sent and
      the messages received. */
  lemma {:induction false} StepsAreBounded(s: State, actions: seq<Action>)
    requires Exec(s, actions).Some?
    ensures ThreadSteps(actions) + Rank(Exec(s, actions).value) <= Rank(s) + Work(actions)
    decreases actions
  {
    hide Rank;
    if actions == [] {
    } else {
      var t := Next(s, actions[0]).value;
      RankFalls(s, actions[0]);
      StepsAreBounded(t, actions[1..]);
    }
  }

  lemma RankFalls(s: State, a: Action)
    requires Next(s, a).Some?
    ensures match a
            case Send(_) => Rank(Next(s, a).value) == Rank(s) + 12
            case Answer(_) => Rank(Next(s, a).value) == Rank(s) + 10
            case Emit(_) => Rank(Next(s, a).value) == Rank(s) + 10
            case _ => Rank(Next(s, a).value) < Rank(s)
  {
    hide IsEvent, CallerNext, EventsNext, CallerRank, EventsRank;
    match a {
      case Send(_) => assert CallerRank(Idle) == 0 && forall wfr :: CallerRank(LockReady(wfr)) == 12 by { Ranks(); }
      case CallerStep => CallerRankFalls(s);
      case EventsStep => EventsRankFalls(s);
      case _ => Ranks();
    }
  }

  lemma Ranks()
    ensures CallerRank(Idle) == 0 && forall wfr :: CallerRank(LockReady(wfr)) == 12
    ensures CallerRank(Woken) < CallerRank(Waiting) && EventsRank(Signalled) < EventsRank(Asleep)
  {}

  lemma CallerRankFalls(s: State)
    requires CallerNext(s).Some?
    ensures Rank(CallerNext(s).value) < Rank(s)
  {}

  lemma EventsRankFalls(s: State)
    requires EventsNext(s).Some?
    ensures Rank(EventsNext(s).value) < Rank(s)
  {
    hide IsEvent;
  }

  // ---- what the handshake relies on

  ghost predicate MayMissReply(s: State)
  {
    exists more :: Spurious !in more && Exec(s, more).Some? && ReplyMissing(Exec(s, more).value)
  }

  /** The wait stands in no loop.  A return without a signal can make the caller read a
      reply that is not there if and only if it comes while nobody holds the mutex: while
      the events thread holds it, the reply is stored before the caller can go on. */
  lemma SpuriousHarmIff(actions: seq<Action>)
    requires Exec(Initial(), actions).Some? && Timely(Initial(), actions)
    requires Exec(Initial(), actions).value.caller.Waiting?
    ensures var s := Exec(Initial(), actions).value;
            MayMissReply(s.(caller := Woken)) <==> s.ready.Nobody?
  {
    hide Exec, Timely, Initial, Histories, Only, IsEvent;
    InitialInv();
    ExecKeeps(Initial(), actions);
    var s := Exec(Initial(), actions).value;
    if s.ready.Nobody? {
      FindsNone(s.(caller := Woken));
    } else {
      SpuriousKeeps(s);
      NeverMissing(s.(caller := Woken));
    }
  }

  lemma NeverMissing(s: State)
    requires Inv(s)
    ensures !MayMissReply(s)
  {
    hide Exec, Timely, Histories, Only, IsEvent;
    forall more | Spurious !in more && Exec(s, more).Some?
      ensures !ReplyMissing(Exec(s, more).value)
    {
      SignalledIsTimely(s, more);
      ExecKeeps(s, more);
    }
  }

  lemma FindsNone(s: State)
    requires s.caller.Woken? && s.ready.Nobody? && !s.reply.Stored?
    ensures MayMissReply(s)
  {
    var more := [CallerStep, CallerStep];
    assert more[1..] == [CallerStep] && [CallerStep][1..] == [];
    var t := CallerNext(s).value;
    var u := CallerNext(t).value;
    assert Exec(u, []) == Some(u);
    assert Exec(t, [CallerStep]) == Some(u);
    assert Exec(s, more) == Some(u) && ReplyMissing(u);
  }

  /** A run with such a return: the first command, before the server has answered. */
  lemma SpuriousReturnMissesReply()
    ensures var s := Exec(Initial(),
                          [Send(true), CallerStep, CallerStep, CallerStep, Spurious, CallerStep, CallerStep]);
            s.Some? && ReplyMissing(s.value) && s.value.pending == 1
  {}
}
