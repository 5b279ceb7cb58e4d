/** What every run of the eSpeak module's threads keeps, that no stop is left undone, and
    when one makes the player look for an entry in an empty queue. */
module EspeakQueueProperties {
  import opened CStrings
  import opened EspeakQueue

  /** In every run the size is the number of samples in the queue, it passes the limit by
      no more than the chunk added last, and entries leave in the order they came. */
  lemma QueueAccounts(actions: seq<Action>, max: nat)
    requires Exec(Initial(), actions, max).Some?
    ensures var s := Exec(Initial(), actions, max).value;
            s.size == Sum(s.queue) && 0 <= s.size <= max + s.past.lastChunk && s.past.popped + s.queue == s.past.pushed
  {
    hide Exec, Initial, Sum, Locks, Stopping, Contents, EndsLast, Served, Begins;
    InitialInv(max);
    ExecKeeps(Initial(), actions, max);
  }

  /** In no reachable state do both threads wait; the one that does has reason to. */
  lemma NeverBothWait(actions: seq<Action>, max: nat)
    requires Exec(Initial(), actions, max).Some?
    ensures var s := Exec(Initial(), actions, max).value;
            (s.producer.WaitRoom? ==> s.size > max && s.queue != [] && !s.consumer.WaitPop?)
            && (s.consumer.WaitPop? ==> s.queue == [] && !s.producer.WaitRoom?)
  {
    hide Exec, Initial, Sum, Locks, Stopping, Contents, EndsLast, Served, Begins;
    InitialInv(max);
    ExecKeeps(Initial(), actions, max);
    SumNone();
  }

  /** A begin is reported at most once for each message, in the order of the messages. */
  lemma BeginOnce(actions: seq<Action>, max: nat)
    requires Exec(Initial(), actions, max).Some?
    ensures var s := Exec(Initial(), actions, max).value;
            (forall i, j | 0 <= i < j < |s.past.begun| :: s.past.begun[i] < s.past.begun[j])
            && forall i | 0 <= i < |s.past.begun| :: s.past.begun[i] <= s.past.message
  {
    hide Exec, Initial, Sum, Locks, Stopping, Contents, EndsLast, Served, Accounts, Waits;
    InitialInv(max);
    ExecKeeps(Initial(), actions, max);
  }

  /** The stopping thread has yet to wake the others. */
  predicate WakesSoon(s: State)
  {
    (s.stopper.Resting? && s.stops > 0) || s.stopper.UnlockStop? || s.stopper.CheckStop?
    || s.stopper.WantWake? || s.stopper.Broadcast?
  }

  /** Whoever waits for room is not forgotten: the playing thread runs or was woken, or a
      stop was requested whose broadcast is still to come. */
  lemma RoomIsMade(actions: seq<Action>, max: nat)
    requires Exec(Initial(), actions, max).Some? && Exec(Initial(), actions, max).value.producer.WaitRoom?
    ensures var s := Exec(Initial(), actions, max).value;
            s.queue != [] && if s.stop then WakesSoon(s) else Live(s)
  {
    hide Exec, Initial, Sum, Begins;
    InitialInv(max);
    ExecKeeps(Initial(), actions, max);
    SumNone();
    assert Inv(Exec(Initial(), actions, max).value, max);
  }

  /** The player is about to take an entry from an empty queue: the code reads through a
      null pointer. */
  predicate EmptyPop(s: State) { s.consumer.Pop? && s.queue == [] && !s.stop }

  /** No thread can go on by itself. */
  predicate Stuck(s: State, max: nat)
  {
    ProducerNext(s, max).None? && !s.producer.InCall? && ConsumerNext(s).None? && StopperNext(s).None?
  }

  /** No deadlock and no lost wake-up: where no thread can go on, apart from an empty pop,
      nothing is locked, every requested stop is done, and the player waits for the next
      entry or, when no message has begun, for the next message. */
  lemma NoDeadlock(actions: seq<Action>, max: nat)
    requires Exec(Initial(), actions, max).Some? && Stuck(Exec(Initial(), actions, max).value, max)
    ensures var s := Exec(Initial(), actions, max).value;
            EmptyPop(s)
            || (s.lock.Nobody? && s.producer.Away? && s.stopper.Resting? && s.stops == 0 && !s.stop
                && ((s.consumer.WaitPop? && s.queue == []) || (Asleep(s) && !Started(s) && s.queue == [])))
  {
    hide Exec, Initial, Sum, Length, Begins;
    InitialInv(max);
    ExecKeeps(Initial(), actions, max);
    SumNone();
    assert Inv(Exec(Initial(), actions, max).value, max);
  }

  // ---- when the player finds the queue empty

  /** The step that leads there is the reset of the stop between the two tests. */
  lemma EmptyPopStep(s: State, a: Action, max: nat)
    requires Locks(s) && Stopping(s) && Next(s, a, max).Some? && !EmptyPop(s)
    ensures EmptyPop(Next(s, a, max).value) <==> a.StopperStep? && s.stopper.Reset? && s.consumer.Pop?
  {
    hide Sum, Length;
    match a {
      case ProducerStep =>
      case ConsumerStep =>
      case StopperStep =>
      case _ =>
    }
  }

  /** No further stop or pause is asked for. */
  predicate Calm(actions: seq<Action>) { RequestStop !in actions && RequestPause !in actions }

  ghost predicate Reaches(s: State, t: State, max: nat)
  {
    exists actions :: Calm(actions) && Exec(s, actions, max) == Some(t)
  }

  ghost predicate ReachesEmptyPop(s: State, max: nat)
  {
    exists actions :: Calm(actions) && Exec(s, actions, max).Some? && EmptyPop(Exec(s, actions, max).value)
  }

  /** The player is still to be woken for the message that is stopped: its begin is still to
      come, or is being reported, or the post for it was not yet taken, or only just. */
  predicate WakesLate(s: State)
  {
    s.phase.BeforeSynth? || Beginning(s.producer) || s.plays > 0 || s.consumer.UnlockPlay?
  }

  /** A stop has found the player suspended and will not let it go on. */
  predicate Secured(s: State)
  {
    Woken(s.stopper) && s.stop && Asleep(s) && Started(s) && !Beginning(s.producer)
  }

  /** No stop is under way, and none will come. */
  predicate Unstopped(s: State)
  {
    !s.stop && !s.pause.PauseRequested? && !EmptyPop(s)
  }

  lemma SecuredNext(s: State, a: Action, max: nat)
    requires Stopping(s) && Secured(s) && !a.RequestStop? && !a.RequestPause? && Next(s, a, max).Some?
    ensures var t := Next(s, a, max).value; Secured(t) || Unstopped(t)
  {
    hide Sum, Length;
  }

  lemma UnstoppedNext(s: State, a: Action, max: nat)
    requires Locks(s) && Stopping(s) && Unstopped(s)
    requires !a.RequestStop? && !a.RequestPause? && Next(s, a, max).Some?
    ensures Unstopped(Next(s, a, max).value)
  {
    hide Sum, Length, EmptyPop, Locks;
    EmptyPopStep(s, a, max);
  }

  lemma {:induction false} SecuredExec(s: State, actions: seq<Action>, max: nat)
    requires Inv(s, max) && (Secured(s) || Unstopped(s)) && Calm(actions) && Exec(s, actions, max).Some?
    ensures !EmptyPop(Exec(s, actions, max).value)
    decreases actions
  {
    hide Next, Locks, Accounts, Waits, Stopping, Contents, EndsLast, Served, Begins;
    if actions == [] {
    } else {
      if Secured(s) { SecuredNext(s, actions[0], max); } else { UnstoppedNext(s, actions[0], max); }
      NextKeeps(s, actions[0], max);
      SecuredExec(Next(s, actions[0], max).value, actions[1..], max);
    }
  }

  lemma ReachesSelf(s: State, max: nat)
    ensures Reaches(s, s, max)
  {
    assert Calm([]) && Exec(s, [], max) == Some(s);
  }

  lemma ReachesNext(s: State, a: Action, u: State, max: nat)
    requires !a.RequestStop? && !a.RequestPause? && Next(s, a, max).Some? && Reaches(Next(s, a, max).value, u, max)
    ensures Reaches(s, u, max)
  {
    hide Next;
    var actions :| Calm(actions) && Exec(Next(s, a, max).value, actions, max) == Some(u);
    assert ([a] + actions)[1..] == actions;
    assert Calm([a] + actions) && Exec(s, [a] + actions, max) == Some(u);
  }

  /** How many steps the callback still makes when a stop was requested. */
  function Steps(p: ProducerAt): nat
  {
    match p
    case Away => 0
    case InCall => 1
    case TestCall => 1
    case TestStop(_) => 2
    case LeaveRoom(_) => 3
    case TestRoom(_) => 4
    case WantRoom(_) => 5
    case WokenRoom(_) => 5
    case WaitRoom(_) => 6
    case PostPlay => 2
    case LeavePush(_) => 3
    case Push(_) => 4
    case WantPush(_) => 5
    case WantState => 6
  }

  /** A stop that waits for the player, which is suspended and will be woken late. */
  ghost predicate Late(s: State, max: nat)
  {
    Inv(s, max) && s.stopper.TestBusy? && PlaySuspended(s) && WakesLate(s)
  }

  function CallNext(p: ProducerAt): Action { if p.InCall? then Return else ProducerStep }

  lemma CallNextLate(s: State, max: nat)
    requires Late(s, max) && !s.producer.Away?
    ensures Next(s, CallNext(s.producer), max).Some?
    ensures var t := Next(s, CallNext(s.producer), max).value;
            Late(t, max) && Steps(t.producer) < Steps(s.producer) && (Started(s) ==> Started(t))
            && (s.producer.WantState? ==> Started(t))
  {
    hide Sum, Length, Contents, EndsLast, Served, Begins, Waits, Accounts;
    assert Next(s, CallNext(s.producer), max).Some?;
    NextKeeps(s, CallNext(s.producer), max);
  }

  /** The callback can always come to its end. */
  lemma {:induction false} CallEnds(s: State, max: nat) returns (t: State)
    requires Late(s, max)
    ensures Reaches(s, t, max) && Late(t, max) && t.producer.Away?
    ensures Started(s) || s.producer.WantState? ==> Started(t)
    decreases Steps(s.producer)
  {
    hide Next, Late, Steps, Exec, Reaches, Started;
    if s.producer.Away? {
      t := s;
      ReachesSelf(s, max);
    } else {
      CallNextLate(s, max);
      t := CallEnds(Next(s, CallNext(s.producer), max).value, max);
      ReachesNext(s, CallNext(s.producer), t, max);
    }
  }

  /** Such a stop, when no callback is under way: the player can wake and look for an entry
      before the state is reset. */
  ghost predicate Doomed(s: State, max: nat)
  {
    Inv(s, max) && Woken(s.stopper) && Started(s) && s.producer.Away?
    && ((s.consumer.Suspended? && s.plays > 0) || s.consumer.UnlockPlay?
        || (s.stopper.Reset?
            && (s.consumer.CheckState? || s.consumer.WantPop? || s.consumer.TestPop? || s.consumer.Pop?)))
  }

  function DoomNext(s: State): (a: Action)
    ensures a.ConsumerStep? || a.StopperStep?
  {
    if s.stopper.Reset? && !s.consumer.Pop? then ConsumerStep else StopperStep
  }

  function ToClear(t: StopperAt): nat
  {
    match t
    case TestBusy => 6
    case Cancel => 5
    case WantClear => 4
    case Clear => 3
    case LeaveClear => 2
    case Reset => 1
    case _ => 7
  }

  function ToPop(c: ConsumerAt): nat
  {
    match c
    case Suspended => 5
    case UnlockPlay => 4
    case CheckState => 3
    case WantPop => 2
    case TestPop => 1
    case _ => 0
  }

  lemma DoomStep(s: State, max: nat)
    requires Doomed(s, max)
    ensures Next(s, DoomNext(s), max).Some?
    ensures var t := Next(s, DoomNext(s), max).value;
            EmptyPop(t)
            || (Doomed(t, max) && ToClear(t.stopper) + ToPop(t.consumer) < ToClear(s.stopper) + ToPop(s.consumer))
  {
    hide Sum, Length, Contents, EndsLast, Served, Begins, Waits, Accounts;
    assert Next(s, DoomNext(s), max).Some?;
    NextKeeps(s, DoomNext(s), max);
  }

  lemma {:induction false} DoomedReach(s: State, max: nat) returns (t: State)
    requires Doomed(s, max)
    ensures Reaches(s, t, max) && EmptyPop(t)
    decreases ToClear(s.stopper) + ToPop(s.consumer)
  {
    hide Next, Doomed, DoomNext, Exec, Reaches, ToClear, ToPop, EmptyPop;
    DoomStep(s, max);
    t := Next(s, DoomNext(s), max).value;
    if EmptyPop(t) {
      ReachesSelf(t, max);
    } else {
      t := DoomedReach(t, max);
    }
    ReachesNext(s, DoomNext(s), t, max);
  }

  lemma ReachesTrans(s: State, t: State, u: State, max: nat)
    requires Reaches(s, t, max) && Reaches(t, u, max)
    ensures Reaches(s, u, max)
  {
    var first :| Calm(first) && Exec(s, first, max) == Some(t);
    var second :| Calm(second) && Exec(t, second, max) == Some(u);
    ExecAppend(s, first, second, max);
    assert Calm(first + second);
  }

  lemma {:induction false} ExecAppend(s: State, first: seq<Action>, second: seq<Action>, max: nat)
    requires Exec(s, first, max).Some?
    ensures Exec(s, first + second, max) == Exec(Exec(s, first, max).value, second, max)
    decreases first
  {
    hide Next;
    if first == [] {
      assert first + second == second;
    } else {
      ExecAppend(Next(s, first[0], max).value, first[1..], second, max);
      assert (first + second)[1..] == first[1..] + second;
    }
  }

  lemma LateCall(s: State, max: nat)
    requires Late(s, max) && s.producer.Away? && !Started(s)
    ensures Next(s, Call, max).Some? && Late(Next(s, Call, max).value, max)
    ensures Next(s, Call, max).value.producer.WantState?
  {
    hide Sum, Length, EndsLast, Served, Begins, Waits, Accounts, Locks;
    assert Next(s, Call, max).Some?;
    NextKeeps(s, Call, max);
  }

  lemma LateReaches(s: State, max: nat)
    requires Late(s, max)
    ensures ReachesEmptyPop(s, max)
  {
    hide Next, Late, Exec, Reaches, Started, Doomed, EmptyPop;
    var t := CallEnds(s, max);
    if !Started(t) {
      LateCall(t, max);
      var u := Next(t, Call, max).value;
      var v := CallEnds(u, max);
      ReachesNext(t, Call, v, max);
      ReachesTrans(s, t, v, max);
      t := v;
    }
    LateDoomed(t, max);
    var e := DoomedReach(t, max);
    ReachesTrans(s, t, e, max);
    ReachedEmptyPop(s, e, max);
  }

  lemma LateDoomed(s: State, max: nat)
    requires Late(s, max) && s.producer.Away? && Started(s)
    ensures Doomed(s, max)
  {
    hide Inv;
  }

  lemma ReachedEmptyPop(s: State, e: State, max: nat)
    requires Reaches(s, e, max) && EmptyPop(e)
    ensures ReachesEmptyPop(s, max)
  {
    hide Exec, EmptyPop;
  }

  /** Exactly when a stop can end in an empty pop: when, as the stopping thread finds the
      player suspended, the player is still to be woken for the message being stopped. */
  lemma EmptyPopIff(actions: seq<Action>, max: nat)
    requires Exec(Initial(), actions, max).Some?
    requires var s := Exec(Initial(), actions, max).value; s.stopper.TestBusy? && PlaySuspended(s)
    ensures var s := Exec(Initial(), actions, max).value; ReachesEmptyPop(s, max) <==> WakesLate(s)
  {
    hide Exec, Initial, Sum, Length, Locks, Accounts, Waits, Contents, EndsLast, Served, Begins, EmptyPop;
    InitialInv(max);
    ExecKeeps(Initial(), actions, max);
    var s := Exec(Initial(), actions, max).value;
    if WakesLate(s) {
      LateReaches(s, max);
    } else {
      assert Secured(s);
      forall more | Calm(more) && Exec(s, more, max).Some?
        ensures !EmptyPop(Exec(s, more, max).value)
      {
        SecuredExec(s, more, max);
      }
    }
  }

  lemma Exec2(s: State, a: Action, b: Action, max: nat) returns (t: State)
    requires Next(s, a, max).Some? && Next(Next(s, a, max).value, b, max).Some?
    ensures Exec(s, [a, b], max) == Some(t) && Next(Next(s, a, max).value, b, max) == Some(t)
  {
    hide Next;
    var u := Next(s, a, max).value;
    t := Next(u, b, max).value;
    assert [a, b][1..] == [b] && [b][1..] == [];
    assert Exec(t, [], max) == Some(t);
    assert Exec(u, [b], max) == Some(t);
  }

  lemma Exec3(s: State, a: Action, b: Action, c: Action, max: nat) returns (t: State)
    requires Next(s, a, max).Some? && Next(Next(s, a, max).value, b, max).Some?
    requires Next(Next(Next(s, a, max).value, b, max).value, c, max).Some?
    ensures Exec(s, [a, b, c], max) == Some(t) && Next(Next(Next(s, a, max).value, b, max).value, c, max) == Some(t)
  {
    hide Next;
    var u := Next(s, a, max).value;
    t := Exec2(u, b, c, max);
    assert [a, b, c][1..] == [b, c];
  }

  // A message is accepted, and stopped before eSpeak has begun with it.  The stopping thread
  // finds the player suspended; only then the begin is queued and the player woken.  The
  // queue is cleared, and the state is reset between the two tests of the player.
  const ACCEPTED := [ConsumerStep, ConsumerStep, StopperStep] + [StopperStep, Speak, RequestStop]
  const BUSY_TEST := [StopperStep, StopperStep, StopperStep] + [StopperStep, StopperStep, StopperStep]
  const LATE_BEGIN := [Call, ProducerStep, ProducerStep] + [ProducerStep, ProducerStep, ProducerStep]
  const CLEARED := [ProducerStep, StopperStep, StopperStep] + [StopperStep, StopperStep]
  const POPS := [ConsumerStep, ConsumerStep, ConsumerStep] + [ConsumerStep, ConsumerStep, StopperStep]

  lemma AcceptedRun(max: nat) returns (t: State)
    ensures Exec(Initial(), ACCEPTED, max) == Some(t)
    ensures t == Initial().(consumer := Suspended, stopper := Resting, stop := true, stops := 1,
                            phase := BeforeSynth, synth := true, past := History([], [], 1, [], 0))
  {
    hide Exec;
    t := Exec3(Initial(), ConsumerStep, ConsumerStep, StopperStep, max);
    t := Exec3(t, StopperStep, Speak, RequestStop, max);
    ExecAppend(Initial(), [ConsumerStep, ConsumerStep, StopperStep], [StopperStep, Speak, RequestStop], max);
  }

  lemma BusyTestRun(s: State, max: nat) returns (t: State)
    requires s.stopper.Resting? && s.stops == 1 && s.stop && s.lock.Nobody? && s.consumer.Suspended? && s.producer.Away?
    ensures Exec(s, BUSY_TEST, max) == Some(t) && t == s.(stopper := Cancel, stops := 0)
  {
    hide Exec;
    t := Exec3(s, StopperStep, StopperStep, StopperStep, max);
    t := Exec3(t, StopperStep, StopperStep, StopperStep, max);
    ExecAppend(s, [StopperStep, StopperStep, StopperStep], [StopperStep, StopperStep, StopperStep], max);
  }

  lemma LateBeginRun(s: State, max: nat) returns (t: State)
    requires s.stopper.Cancel? && s.stop && s.lock.Nobody? && s.consumer.Suspended? && s.producer.Away?
    requires s.phase.BeforeSynth? && s.synth && s.plays == 0
    ensures Exec(s, LATE_BEGIN, max) == Some(t)
    ensures t.stopper.Cancel? && t.stop && t.lock.Nobody? && t.consumer.Suspended? && t.producer.TestCall?
    ensures t.phase.BeforePlay? && t.plays == 1
  {
    hide Exec;
    t := Exec3(s, Call, ProducerStep, ProducerStep, max);
    t := Exec3(t, ProducerStep, ProducerStep, ProducerStep, max);
    ExecAppend(s, [Call, ProducerStep, ProducerStep], [ProducerStep, ProducerStep, ProducerStep], max);
  }

  lemma ClearedRun(s: State, max: nat) returns (t: State)
    requires s.stopper.Cancel? && s.stop && s.lock.Nobody? && s.consumer.Suspended? && s.producer.TestCall?
    requires s.phase.BeforePlay? && s.plays == 1
    ensures Exec(s, CLEARED, max) == Some(t)
    ensures t.stopper.Reset? && t.stop && t.lock.Nobody? && t.consumer.Suspended? && t.producer.Away?
    ensures t.phase.BeforePlay? && t.plays == 1 && t.queue == []
  {
    hide Exec;
    t := Exec3(s, ProducerStep, StopperStep, StopperStep, max);
    t := Exec2(t, StopperStep, StopperStep, max);
    ExecAppend(s, [ProducerStep, StopperStep, StopperStep], [StopperStep, StopperStep], max);
  }

  lemma PopsRun(s: State, max: nat) returns (t: State)
    requires s.stopper.Reset? && s.stop && s.lock.Nobody? && s.consumer.Suspended? && s.producer.Away?
    requires s.phase.BeforePlay? && s.plays == 1 && s.queue == []
    ensures Exec(s, POPS, max) == Some(t) && EmptyPop(t)
  {
    hide Exec;
    t := Exec3(s, ConsumerStep, ConsumerStep, ConsumerStep, max);
    t := Exec3(t, ConsumerStep, ConsumerStep, StopperStep, max);
    ExecAppend(s, [ConsumerStep, ConsumerStep, ConsumerStep], [ConsumerStep, ConsumerStep, StopperStep], max);
  }

  /** A run that ends in an empty pop, through a state in which the stopping thread has
      passed its busy test while the player sleeps. */
  lemma EmptyPopRun(max: nat)
    ensures var busy := Exec(Initial(), ACCEPTED + BUSY_TEST, max);
            busy.Some? && PastBusy(busy.value.stopper) && Asleep(busy.value)
    ensures var end := Exec(Initial(), ACCEPTED + BUSY_TEST + LATE_BEGIN + CLEARED + POPS, max);
            end.Some? && EmptyPop(end.value)
  {
    hide Exec, ACCEPTED, BUSY_TEST, LATE_BEGIN, CLEARED, POPS;
    var s := AcceptedRun(max);
    s := BusyTestRun(s, max);
    ExecAppend(Initial(), ACCEPTED, BUSY_TEST, max);
    s := LateBeginRun(s, max);
    ExecAppend(Initial(), ACCEPTED + BUSY_TEST, LATE_BEGIN, max);
    s := ClearedRun(s, max);
    ExecAppend(Initial(), ACCEPTED + BUSY_TEST + LATE_BEGIN, CLEARED, max);
    s := PopsRun(s, max);
    ExecAppend(Initial(), ACCEPTED + BUSY_TEST + LATE_BEGIN + CLEARED, POPS, max);
  }
}
