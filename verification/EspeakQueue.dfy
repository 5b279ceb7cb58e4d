/** The playback queue of the eSpeak module (src/modules/espeak.c) and the threads around
    it: the one that synthesizes, the one that plays, the one that stops both, and the one
    that takes commands.

    A step is what a thread does between two operations on a mutex, a semaphore or the one
    condition variable.  The mutex of the queue is a field; that of the state is held for
    more than a step by the synthesizing thread only, while it reports a begin; the two
    "suspended" mutexes are held where a thread waits for its semaphore. */
module EspeakQueue {
  import opened CStrings

  /** ours tells whether a mark is one that the server inserted. */
  datatype Entry = Audio(samples: seq<int>) | IndexMark(ours: bool) | SoundIcon | Begin | End

  function Length(e: Entry): nat { if e.Audio? then |e.samples| else 0 }

  function Sum(q: seq<Entry>): nat
  {
    if q == [] then 0 else Length(q[0]) + Sum(q[1..])
  }

  datatype Owner = Nobody | Producer | Consumer | Stopper

  /** Where the synthesizing thread is in the callback. */
  datatype ProducerAt =
    | Away
    | WantState              // about to lock the state
    | WantRoom(e: Entry)     // about to lock the queue, to wait for room
    | TestRoom(e: Entry)     // the condition of the loop, the queue locked
    | WaitRoom(e: Entry)     // in pthread_cond_wait
    | WokenRoom(e: Entry)    // woken, about to take the mutex back
    | LeaveRoom(e: Entry)    // after the loop, the queue locked
    | TestStop(e: Entry)
    | WantPush(e: Entry)     // about to lock the queue, in playback_queue_push
    | Push(e: Entry)
    | LeavePush(e: Entry)
    | PostPlay               // about to wake the playing thread, the state locked
    | TestCall               // the test for a stop after the begin and after each event
    | InCall                 // before the next event

  /** Where the playing thread is. */
  datatype ConsumerAt =
    | TryPlay                // sem_trywait
    | LockPlay               // about to lock its suspended mutex
    | Suspended              // in sem_wait, that mutex locked
    | UnlockPlay             // posted, about to unlock it
    | CheckState
    | WantPop
    | TestPop
    | WaitPop
    | WokenPop
    | Pop
    | LeavePop(got: Option<Entry>)
    | Process(e: Entry)

  /** Where the stopping thread is. */
  datatype StopperAt =
    | TryStop | LockStop | Resting | UnlockStop | CheckStop
    | WantWake | Broadcast
    | TestBusy               // waiting for the playing thread to be suspended
    | Cancel                 // in espeak_Cancel
    | WantClear | Clear | LeaveClear | Reset

  datatype Phase = Idle | BeforeSynth | BeforePlay | Speaking

  datatype Pause = PauseOff | PauseRequested | MarkReported

  /** What happened: the entries pushed and popped since the queue was last cleared, the
      number of messages accepted, those for which a begin was reported, and the length of
      the audio pushed last. */
  datatype History = History(pushed: seq<Entry>, popped: seq<Entry>, message: nat, begun: seq<nat>, lastChunk: nat)

  /** size is playback_queue_size, plays and stops are the counts of the two semaphores,
      and synth tells whether eSpeak has text left. */
  datatype State = State(
    queue: seq<Entry>, size: int, lock: Owner, producer: ProducerAt, consumer: ConsumerAt, stopper: StopperAt,
    stop: bool, phase: Phase, pause: Pause, plays: nat, stops: nat, synth: bool, past: History)

  function Initial(): State
  {
    State([], 0, Nobody, Away, TryPlay, TryStop, false, Idle, PauseOff, 0, 0, false, History([], [], 0, [], 0))
  }

  /** The synthesizing thread reports a begin: it holds the mutex of the state. */
  predicate Beginning(p: ProducerAt)
  {
    ((p.WantPush? || p.Push? || p.LeavePush?) && p.e.Begin?) || p.PostPlay?
  }

  /** The playing thread holds its suspended mutex: it is not busy. */
  predicate PlaySuspended(s: State) { s.consumer.Suspended? || s.consumer.UnlockPlay? }

  predicate StopSuspended(s: State) { s.stopper.Resting? || s.stopper.UnlockStop? }

  /** The playing thread waits, and nothing has woken it. */
  predicate Asleep(s: State) { s.consumer.Suspended? && s.plays == 0 }

  predicate Started(s: State) { s.phase.BeforePlay? || s.phase.Speaking? }

  /** pthread_cond_signal: one waiting thread is woken.  The two never wait at once, so it
      does not matter which one would be preferred. */
  function Signalled(s: State): State
  {
    s.(consumer := if s.consumer.WaitPop? then WokenPop else s.consumer,
       producer := if s.producer.WaitRoom? && !s.consumer.WaitPop? then WokenRoom(s.producer.e) else s.producer)
  }

  function Broadcasted(s: State): State
  {
    s.(consumer := if s.consumer.WaitPop? then WokenPop else s.consumer,
       producer := if s.producer.WaitRoom? then WokenRoom(s.producer.e) else s.producer)
  }

  /** The synthesizing thread has audio that it may not push yet. */
  predicate SeeksRoom(p: ProducerAt)
  {
    p.WantRoom? || p.TestRoom? || p.WaitRoom? || p.WokenRoom? || p.LeaveRoom? || p.TestStop?
  }

  /** The next step of the synthesizing thread, when the limit is max. */
  function ProducerNext(s: State, max: nat): Option<State>
  {
    if SeeksRoom(s.producer) then SeekerNext(s, max) else PusherNext(s)
  }

  /** Its steps in espeak_add_audio_to_playback_queue, up to the push. */
  function SeekerNext(s: State, max: nat): Option<State>
    requires SeeksRoom(s.producer)
  {
    match s.producer
    case WantRoom(e) => if s.lock.Nobody? then Some(s.(lock := Producer, producer := TestRoom(e))) else None
    case TestRoom(e) =>
      if !s.stop && s.size > max then Some(s.(lock := Nobody, producer := WaitRoom(e)))
      else Some(s.(producer := LeaveRoom(e)))
    case WaitRoom(e) => None
    case WokenRoom(e) => if s.lock.Nobody? then Some(s.(lock := Producer, producer := TestRoom(e))) else None
    case LeaveRoom(e) => Some(s.(lock := Nobody, producer := TestStop(e)))
    case TestStop(e) => Some(s.(producer := if s.stop then InCall else WantPush(e)))
  }

  /** Its other steps in the callback. */
  function PusherNext(s: State): Option<State>
    requires !SeeksRoom(s.producer)
  {
    match s.producer
    case Away => None
    case WantState =>
      Some(if s.phase.BeforeSynth? then s.(phase := BeforePlay, producer := WantPush(Begin))
           else s.(producer := TestCall))
    case WantPush(e) => if s.lock.Nobody? then Some(s.(lock := Producer, producer := Push(e))) else None
    case Push(e) =>
      Some(Signalled(s.(queue := s.queue + [e], size := s.size + Length(e), producer := LeavePush(e),
                        past := s.past.(pushed := s.past.pushed + [e],
                                        lastChunk := if e.Audio? then Length(e) else s.past.lastChunk))))
    case LeavePush(e) => Some(s.(lock := Nobody, producer := AfterPush(e)))
    case PostPlay => Some(s.(plays := s.plays + 1, producer := TestCall))
    case TestCall => Some(s.(producer := if s.stop then Away else InCall))
    case InCall => None
  }

  /** Where the callback goes on.  An end comes last, in a call without audio. */
  function AfterPush(e: Entry): ProducerAt
  {
    match e
    case Begin => PostPlay
    case Audio(_) => InCall
    case End => Away
    case _ => TestCall
  }

  /** The playing thread has no entry to look for. */
  predicate Idles(c: ConsumerAt)
  {
    c.TryPlay? || c.LockPlay? || c.Suspended? || c.UnlockPlay? || c.CheckState?
  }

  /** The next step of the playing thread. */
  function ConsumerNext(s: State): Option<State>
  {
    if Idles(s.consumer) then IdlerNext(s) else PlayerNext(s)
  }

  /** Its steps from one semaphore test to the next entry. */
  function IdlerNext(s: State): Option<State>
    requires Idles(s.consumer)
  {
    match s.consumer
    case TryPlay =>
      Some(if s.plays > 0 then s.(plays := s.plays - 1, consumer := CheckState) else s.(consumer := LockPlay))
    case LockPlay => Some(s.(consumer := Suspended))
    case Suspended => if s.plays > 0 then Some(s.(plays := s.plays - 1, consumer := UnlockPlay)) else None
    case UnlockPlay => Some(s.(consumer := CheckState))
    case CheckState => Some(s.(consumer := if Started(s) then WantPop else TryPlay))
  }

  /** Its steps in playback_queue_pop and with the entry. */
  function PlayerNext(s: State): Option<State>
    requires !Idles(s.consumer)
  {
    match s.consumer
    case WantPop => if s.lock.Nobody? then Some(s.(lock := Consumer, consumer := TestPop)) else None
    case TestPop =>
      if !s.stop && s.queue == [] then Some(s.(lock := Nobody, consumer := WaitPop))
      else Some(s.(consumer := Pop))
    case WaitPop => None
    case WokenPop => if s.lock.Nobody? then Some(s.(lock := Consumer, consumer := TestPop)) else None
    case Pop =>
      if s.stop then Some(s.(consumer := LeavePop(None)))
      else if s.queue == [] then None
      else
        var e := s.queue[0];
        var t := s.(queue := s.queue[1..], size := s.size - Length(e), consumer := LeavePop(Some(e)),
                    past := s.past.(popped := s.past.popped + [e]));
        Some(if e.Audio? then Signalled(t) else t)
    case LeavePop(got) => Some(s.(lock := Nobody, consumer := if got.Some? then Process(got.value) else TryPlay))
    case Process(e) => if e.Audio? || e.SoundIcon? || !Beginning(s.producer) then Some(Processed(s, e)) else None
  }

  /** What the playing thread does with an entry; marks, begins and ends lock the state. */
  function Processed(s: State, e: Entry): State
  {
    match e
    case Begin =>
      if s.phase.BeforePlay?
      then s.(phase := Speaking, consumer := WantPop, past := s.past.(begun := s.past.begun + [s.past.message]))
      else s.(consumer := WantPop)
    case End =>
      if !s.phase.Speaking? then s.(consumer := WantPop)
      else if s.stop then s.(consumer := TryPlay)
      else s.(phase := Idle, pause := PauseOff, consumer := TryPlay)
    case IndexMark(ours) =>
      if s.phase.Speaking? && s.pause.PauseRequested? && StopSuspended(s) && ours
      then s.(stop := true, pause := MarkReported, stops := s.stops + 1, consumer := TryPlay)
      else s.(consumer := WantPop)
    case _ => s.(consumer := WantPop)
  }

  /** The stopping thread has no stop to make. */
  predicate Rests(t: StopperAt)
  {
    t.TryStop? || t.LockStop? || t.Resting? || t.UnlockStop? || t.CheckStop?
  }

  /** The next step of the stopping thread. */
  function StopperNext(s: State): Option<State>
  {
    if Rests(s.stopper) then ResterNext(s) else StopNext(s)
  }

  /** Its steps from one semaphore test to the stop. */
  function ResterNext(s: State): Option<State>
    requires Rests(s.stopper)
  {
    match s.stopper
    case TryStop =>
      Some(if s.stops > 0 then s.(stops := s.stops - 1, stopper := CheckStop) else s.(stopper := LockStop))
    case LockStop => Some(s.(stopper := Resting))
    case Resting => if s.stops > 0 then Some(s.(stops := s.stops - 1, stopper := UnlockStop)) else None
    case UnlockStop => Some(s.(stopper := CheckStop))
    case CheckStop => Some(s.(stopper := if s.stop then WantWake else TryStop))
  }

  /** It wakes the others, waits until the player is suspended and the synthesis cancelled,
      clears the queue and resets the state. */
  function StopNext(s: State): Option<State>
    requires !Rests(s.stopper)
  {
    match s.stopper
    case WantWake => if s.lock.Nobody? then Some(s.(lock := Stopper, stopper := Broadcast)) else None
    case Broadcast => Some(Broadcasted(s).(lock := Nobody, stopper := TestBusy))
    case TestBusy => if PlaySuspended(s) then Some(s.(stopper := Cancel)) else None
    case Cancel => if s.producer.Away? then Some(s.(synth := false, stopper := WantClear)) else None
    case WantClear => if s.lock.Nobody? then Some(s.(lock := Stopper, stopper := Clear)) else None
    case Clear => Some(s.(queue := [], size := 0, past := s.past.(pushed := [], popped := []), stopper := LeaveClear))
    case LeaveClear => Some(s.(lock := Nobody, stopper := Reset))
    case Reset =>
      if Beginning(s.producer) then None
      else Some(s.(phase := Idle, pause := PauseOff, stop := false, stopper := TryStop))
  }

  /** The commands of the server, what eSpeak does, and the steps of the threads. */
  datatype Action =
    | Speak                    // a message is accepted
    | RequestStop
    | RequestPause
    | Call                     // eSpeak calls back
    | Add(e: Entry)            // the call goes on with an event or some audio
    | Return                   // the call ends
    | ProducerStep
    | ConsumerStep
    | StopperStep
    | SpuriousProducer         // the waits may return without a signal
    | SpuriousConsumer

  function Next(s: State, a: Action, max: nat): Option<State>
  {
    match a
    case Speak =>
      if s.phase.Idle?
      then Some(s.(phase := BeforeSynth, pause := PauseOff, stop := false, synth := true,
                     past := s.past.(message := s.past.message + 1)))
      else None
    case RequestStop =>
      if !Beginning(s.producer) && !s.phase.Idle? && !s.stop && StopSuspended(s)
      then Some(s.(stop := true, stops := s.stops + 1)) else None
    case RequestPause =>
      if !Beginning(s.producer) && s.pause.PauseOff? && !s.stop then Some(s.(pause := PauseRequested)) else None
    case Call => if s.producer.Away? && s.synth then Some(s.(producer := WantState)) else None
    case Add(e) =>
      if s.producer.InCall? && !e.Begin? && (e.Audio? ==> e.samples != [])
      then Some(s.(producer := if e.Audio? then WantRoom(e) else WantPush(e), synth := s.synth && !e.End?)) else None
    case Return => if s.producer.InCall? then Some(s.(producer := Away)) else None
    case ProducerStep => ProducerNext(s, max)
    case ConsumerStep => ConsumerNext(s)
    case StopperStep => StopperNext(s)
    case SpuriousProducer => if s.producer.WaitRoom? then Some(s.(producer := WokenRoom(s.producer.e))) else None
    case SpuriousConsumer => if s.consumer.WaitPop? then Some(s.(consumer := WokenPop)) else None
  }

  function Exec(s: State, actions: seq<Action>, max: nat): Option<State>
    decreases actions
  {
    if actions == [] then Some(s)
    else match Next(s, actions[0], max)
         case None => None
         case Some(t) => Exec(t, actions[1..], max)
  }

  // ---- the invariant

  predicate ProducerHolds(p: ProducerAt) { p.TestRoom? || p.LeaveRoom? || p.Push? || p.LeavePush? }
  predicate ConsumerHolds(c: ConsumerAt) { c.TestPop? || c.Pop? || c.LeavePop? }
  predicate StopperHolds(t: StopperAt) { t.Broadcast? || t.Clear? || t.LeaveClear? }

  predicate Locks(s: State)
  {
    (s.lock.Producer? <==> ProducerHolds(s.producer)) && (s.lock.Consumer? <==> ConsumerHolds(s.consumer))
    && (s.lock.Stopper? <==> StopperHolds(s.stopper))
  }

  /** Entries leave in the order in which they came; the size is what they hold. */
  ghost predicate Accounts(s: State)
  {
    s.past.popped + s.queue == s.past.pushed && s.size == Sum(s.queue)
  }

  /** The producer has passed its wait for room. */
  predicate HasRoom(p: ProducerAt) { (p.WantPush? || p.Push?) && p.e.Audio? }
  predicate LeavesRoom(p: ProducerAt) { p.LeaveRoom? || p.TestStop? }

  /** A thread waits only while it has to, and the size passes the limit by no more than
      the chunk added last. */
  ghost predicate Waits(s: State, max: nat)
  {
    (s.producer.WaitRoom? ==> s.size > max) && (s.consumer.WaitPop? ==> s.queue == [])
    && (HasRoom(s.producer) ==> s.size <= max)
    && (LeavesRoom(s.producer) ==> s.size <= max || s.stop)
    && s.size <= max + s.past.lastChunk
  }

  predicate Cancelled(t: StopperAt) { t.WantClear? || t.Clear? || t.LeaveClear? || t.Reset? }
  predicate PastBusy(t: StopperAt) { t.Cancel? || Cancelled(t) }
  predicate Woken(t: StopperAt) { t.TestBusy? || PastBusy(t) }

  /** The entry that the playing thread has taken. */
  predicate Holds(c: ConsumerAt) { (c.LeavePop? && c.got.Some?) || c.Process? }

  /** How far a stop has come: it was requested and posted, the waiting threads were woken,
      the player was suspended, the synthesis cancelled, the queue cleared. */
  predicate Stopping(s: State)
  {
    (s.stop ==> !s.phase.Idle? && !s.stopper.TryStop? && !s.stopper.LockStop?
                && (s.stopper.Resting? ==> s.stops > 0))
    && (s.stopper.LockStop? ==> s.stops == 0)
    && (s.stopper.Resting? && s.stops > 0 ==> s.stop)
    && (s.stopper.UnlockStop? || s.stopper.WantWake? || s.stopper.Broadcast? || Woken(s.stopper) ==> s.stop)
    && (Woken(s.stopper) ==> !s.producer.WaitRoom? && !s.consumer.WaitPop?)
    && (PastBusy(s.stopper) ==> !Holds(s.consumer))
    && (Cancelled(s.stopper) ==> s.producer.Away? && !s.synth)
    && (s.stopper.LeaveClear? || s.stopper.Reset? ==> s.queue == [])
  }

  /** The producer is done with a message. */
  predicate Done(p: ProducerAt) { p.Away? || (p.LeavePush? && p.e.End?) }

  predicate HoldsEnd(c: ConsumerAt) { c == LeavePop(Some(End)) || c == Process(End) }

  /** What belongs to a message is there only while it is spoken. */
  ghost predicate Contents(s: State)
  {
    (!Started(s) ==> s.queue == [] && !Holds(s.consumer) && (Done(s.producer) || s.producer.WantState?))
    && (s.phase.Idle? ==> !s.synth && Done(s.producer))
    && (SeeksRoom(s.producer) ==> s.producer.e.Audio?)
    && (s.phase.BeforeSynth? && !Cancelled(s.stopper) ==> s.synth)
    && ((s.producer.WantPush? || s.producer.Push?) && s.producer.e.End? ==> !s.synth)
  }

  /** Nothing comes behind the end of a message. */
  ghost predicate LastEnds(held: bool, queue: seq<Entry>, over: bool)
  {
    (held ==> queue == [] && over) && forall i | 0 <= i < |queue| && queue[i] == End :: i == |queue| - 1 && over
  }

  ghost predicate EndsLast(s: State)
  {
    LastEnds(HoldsEnd(s.consumer), s.queue, !s.synth && Done(s.producer))
  }

  lemma LastEndsOver(held: bool, queue: seq<Entry>, over: bool)
    requires LastEnds(held, queue, over)
    ensures LastEnds(held, queue, true) && LastEnds(held, [], over)
  {}

  /** The playing thread runs, or has been woken to do so. */
  predicate Live(s: State)
  {
    s.plays > 0
    || !(s.consumer.TryPlay? || s.consumer.LockPlay? || s.consumer.Suspended? || s.consumer == LeavePop(None))
  }

  /** A message that has begun is played, unless a stop is under way. */
  predicate Served(s: State)
  {
    Started(s) && !s.stop && !Beginning(s.producer) ==> Live(s)
  }

  /** A begin was reported for each message at most once, and only while it is spoken or
      after. */
  ghost predicate BegunOnce(h: History, phase: Phase)
  {
    (forall i, j | 0 <= i < j < |h.begun| :: h.begun[i] < h.begun[j])
    && (forall i | 0 <= i < |h.begun| :: h.begun[i] <= h.message)
    && (phase.BeforeSynth? || phase.BeforePlay? ==> h.begun == [] || h.begun[|h.begun| - 1] < h.message)
  }

  ghost predicate Begins(s: State) { BegunOnce(s.past, s.phase) }

  ghost predicate Books(s: State, max: nat)
  {
    Locks(s) && Accounts(s) && Waits(s, max) && Begins(s)
  }

  ghost predicate Threads(s: State)
  {
    Stopping(s) && Contents(s) && EndsLast(s) && Served(s)
  }

  ghost predicate Inv(s: State, max: nat)
  {
    Books(s, max) && Threads(s)
  }

  lemma InvDef(s: State, max: nat)
    ensures Inv(s, max) <==>
            Locks(s) && Accounts(s) && Waits(s, max) && Begins(s)
            && Stopping(s) && Contents(s) && EndsLast(s) && Served(s)
  {
    hide Locks, Accounts, Waits, Stopping, Contents, EndsLast, Served, Begins;
  }

  lemma StoppingOf(s: State)
    requires Threads(s)
    ensures Stopping(s)
  {
    hide Stopping, Contents, EndsLast, Served;
  }

  lemma InitialInv(max: nat)
    ensures Inv(Initial(), max)
  {}

  lemma {:induction false} SumAppend(q: seq<Entry>, e: Entry)
    ensures Sum(q + [e]) == Sum(q) + Length(e)
  {
    if q == [] {
      assert q + [e] == [e] && [e][1..] == [];
    } else {
      assert (q + [e])[1..] == q[1..] + [e];
      SumAppend(q[1..], e);
    }
  }

  lemma SumStep(q: seq<Entry>)
    requires q != []
    ensures Sum(q) == Length(q[0]) + Sum(q[1..])
  {}

  lemma SumNone()
    ensures Sum([]) == 0
  {}

  lemma PusherLocks(s: State, max: nat)
    requires Locks(s) && !SeeksRoom(s.producer) && PusherNext(s).Some?
    ensures Locks(PusherNext(s).value)
  {
    hide Sum, Length;
  }

  lemma PlayerLocks(s: State, max: nat)
    requires Locks(s) && !Idles(s.consumer) && PlayerNext(s).Some?
    ensures Locks(PlayerNext(s).value)
  {
    hide Sum, Length;
  }

  lemma StopLocks(s: State, max: nat)
    requires Locks(s) && !Rests(s.stopper) && StopNext(s).Some?
    ensures Locks(StopNext(s).value)
  {
    hide Sum, Length;
  }

  lemma PusherAccounts(s: State, max: nat)
    requires Accounts(s) && !SeeksRoom(s.producer) && PusherNext(s).Some?
    ensures Accounts(PusherNext(s).value)
  {
    hide Sum, Length;
    if s.producer.Push? {
      SumAppend(s.queue, s.producer.e);
      assert s.past.popped + (s.queue + [s.producer.e]) == s.past.pushed + [s.producer.e];
    }
  }

  lemma PlayerAccounts(s: State, max: nat)
    requires Accounts(s) && !Idles(s.consumer) && PlayerNext(s).Some?
    ensures Accounts(PlayerNext(s).value)
  {
    hide Sum, Length;
    if s.queue != [] {
      SumStep(s.queue);
      assert (s.past.popped + [s.queue[0]]) + s.queue[1..] == s.past.popped + s.queue;
    }
  }

  lemma StopAccounts(s: State, max: nat)
    requires Accounts(s) && !Rests(s.stopper) && StopNext(s).Some?
    ensures Accounts(StopNext(s).value)
  {
    hide Sum, Length;
    SumNone();
  }

  lemma PusherWaits(s: State, max: nat)
    requires Waits(s, max) && Stopping(s) && !SeeksRoom(s.producer) && PusherNext(s).Some?
    ensures Waits(PusherNext(s).value, max)
  {
    hide Sum;
  }

  lemma PlayerWaits(s: State, max: nat)
    requires Waits(s, max) && Stopping(s) && !Idles(s.consumer) && PlayerNext(s).Some?
    ensures Waits(PlayerNext(s).value, max)
  {
    hide Sum;
    SumNone();
  }

  lemma StopWaits(s: State, max: nat)
    requires Waits(s, max) && Stopping(s) && !Rests(s.stopper) && StopNext(s).Some?
    ensures Waits(StopNext(s).value, max)
  {
    hide Sum;
    SumNone();
  }

  lemma PusherStopping(s: State, max: nat)
    requires Stopping(s) && !SeeksRoom(s.producer) && PusherNext(s).Some?
    ensures Stopping(PusherNext(s).value)
  {
    hide Sum, Length;
  }

  lemma PlayerStopping(s: State, max: nat)
    requires Stopping(s) && !Idles(s.consumer) && PlayerNext(s).Some?
    ensures Stopping(PlayerNext(s).value)
  {
    hide Sum, Length;
  }

  lemma StopStopping(s: State, max: nat)
    requires Stopping(s) && !Rests(s.stopper) && StopNext(s).Some?
    ensures Stopping(StopNext(s).value)
  {
    hide Sum, Length;
  }

  lemma PusherContents(s: State, max: nat)
    requires Contents(s) && !SeeksRoom(s.producer) && PusherNext(s).Some?
    ensures Contents(PusherNext(s).value)
  {
    hide Sum, Length, LastEnds;
  }

  lemma PlayerContents(s: State, max: nat)
    requires Stopping(s) && Contents(s) && EndsLast(s) && !Idles(s.consumer) && PlayerNext(s).Some?
    ensures Contents(PlayerNext(s).value)
  {
    hide Sum, Length;
  }

  lemma StopContents(s: State, max: nat)
    requires Stopping(s) && Contents(s) && EndsLast(s) && !Rests(s.stopper) && StopNext(s).Some?
    ensures Contents(StopNext(s).value)
  {
    hide Sum, Length, LastEnds;
  }

  lemma PusherEndsLast(s: State, max: nat)
    requires Contents(s) && EndsLast(s) && !SeeksRoom(s.producer) && PusherNext(s).Some?
    ensures EndsLast(PusherNext(s).value)
  {
    hide Sum, Length;
  }

  lemma PlayerEndsLast(s: State, max: nat)
    requires Contents(s) && EndsLast(s) && !Idles(s.consumer) && PlayerNext(s).Some?
    ensures EndsLast(PlayerNext(s).value)
  {
    hide Sum, Length;
  }

  lemma StopEndsLast(s: State, max: nat)
    requires Contents(s) && EndsLast(s) && !Rests(s.stopper) && StopNext(s).Some?
    ensures EndsLast(StopNext(s).value)
  {
    hide Sum, Length, LastEnds;
    LastEndsOver(HoldsEnd(s.consumer), s.queue, !s.synth && Done(s.producer));
  }

  lemma PusherServed(s: State, max: nat)
    requires Served(s) && !SeeksRoom(s.producer) && PusherNext(s).Some?
    ensures Served(PusherNext(s).value)
  {
    hide Sum, Length;
  }

  lemma PlayerServed(s: State, max: nat)
    requires Served(s) && !Idles(s.consumer) && PlayerNext(s).Some?
    ensures Served(PlayerNext(s).value)
  {
    hide Sum, Length;
  }

  lemma StopServed(s: State, max: nat)
    requires Served(s) && !Rests(s.stopper) && StopNext(s).Some?
    ensures Served(StopNext(s).value)
  {
    hide Sum, Length;
  }

  lemma PusherBegins(s: State, max: nat)
    requires Begins(s) && !SeeksRoom(s.producer) && PusherNext(s).Some?
    ensures Begins(PusherNext(s).value)
  {
    hide Sum, Length;
  }

  lemma BegunMore(h: History, phase: Phase)
    requires BegunOnce(h, phase)
    ensures BegunOnce(h, Idle) && BegunOnce(h, Speaking)
    ensures phase.BeforePlay? ==> BegunOnce(h.(begun := h.begun + [h.message]), Speaking)
    ensures forall popped :: BegunOnce(h.(popped := popped), phase)
  {}

  lemma PlayerBegins(s: State, max: nat)
    requires Begins(s) && !Idles(s.consumer) && PlayerNext(s).Some?
    ensures Begins(PlayerNext(s).value)
  {
    hide Sum, Length, BegunOnce;
    BegunMore(s.past, s.phase);
  }

  lemma StopBegins(s: State, max: nat)
    requires Begins(s) && !Rests(s.stopper) && StopNext(s).Some?
    ensures Begins(StopNext(s).value)
  {
    hide Sum, Length;
  }

  lemma SeekerBooks(s: State, max: nat)
    requires Books(s, max) && Stopping(s) && SeeksRoom(s.producer) && SeekerNext(s, max).Some?
    ensures Books(SeekerNext(s, max).value, max)
  {
    hide Sum, Length, BegunOnce;
  }

  lemma SeekerThreads(s: State, max: nat)
    requires Threads(s) && SeeksRoom(s.producer) && SeekerNext(s, max).Some?
    ensures Threads(SeekerNext(s, max).value)
  {
    hide Sum, Length, BegunOnce, LastEnds;
  }

  lemma IdlerBooks(s: State, max: nat)
    requires Books(s, max) && Stopping(s) && Idles(s.consumer) && IdlerNext(s).Some?
    ensures Books(IdlerNext(s).value, max)
  {
    hide Sum, Length, BegunOnce;
  }

  lemma IdlerThreads(s: State, max: nat)
    requires Threads(s) && Idles(s.consumer) && IdlerNext(s).Some?
    ensures Threads(IdlerNext(s).value)
  {
    hide Sum, Length, BegunOnce, LastEnds;
  }

  lemma ResterBooks(s: State, max: nat)
    requires Books(s, max) && Stopping(s) && Rests(s.stopper) && ResterNext(s).Some?
    ensures Books(ResterNext(s).value, max)
  {
    hide Sum, Length, BegunOnce;
  }

  lemma ResterThreads(s: State, max: nat)
    requires Threads(s) && Rests(s.stopper) && ResterNext(s).Some?
    ensures Threads(ResterNext(s).value)
  {
    hide Sum, Length, BegunOnce, LastEnds;
  }

  lemma PusherKeeps(s: State, max: nat)
    requires Inv(s, max) && !SeeksRoom(s.producer) && PusherNext(s).Some?
    ensures Inv(PusherNext(s).value, max)
  {
    hide *;
    InvDef(s, max);
    PusherLocks(s, max);
    PusherAccounts(s, max);
    PusherWaits(s, max);
    PusherStopping(s, max);
    PusherContents(s, max);
    PusherEndsLast(s, max);
    PusherServed(s, max);
    PusherBegins(s, max);
    InvDef(PusherNext(s).value, max);
  }

  lemma PlayerKeeps(s: State, max: nat)
    requires Inv(s, max) && !Idles(s.consumer) && PlayerNext(s).Some?
    ensures Inv(PlayerNext(s).value, max)
  {
    hide *;
    InvDef(s, max);
    PlayerLocks(s, max);
    PlayerAccounts(s, max);
    PlayerWaits(s, max);
    PlayerStopping(s, max);
    PlayerContents(s, max);
    PlayerEndsLast(s, max);
    PlayerServed(s, max);
    PlayerBegins(s, max);
    InvDef(PlayerNext(s).value, max);
  }

  lemma StopKeeps(s: State, max: nat)
    requires Inv(s, max) && !Rests(s.stopper) && StopNext(s).Some?
    ensures Inv(StopNext(s).value, max)
  {
    hide *;
    InvDef(s, max);
    StopLocks(s, max);
    StopAccounts(s, max);
    StopWaits(s, max);
    StopStopping(s, max);
    StopContents(s, max);
    StopEndsLast(s, max);
    StopServed(s, max);
    StopBegins(s, max);
    InvDef(StopNext(s).value, max);
  }

  lemma OutsideBooks(s: State, a: Action, max: nat)
    requires Books(s, max) && Stopping(s)
    requires !a.ProducerStep? && !a.ConsumerStep? && !a.StopperStep? && Next(s, a, max).Some?
    ensures Books(Next(s, a, max).value, max)
  {
    hide Sum, Length, ProducerNext, ConsumerNext, StopperNext;
  }

  lemma OutsideThreads(s: State, a: Action, max: nat)
    requires Threads(s) && !a.ProducerStep? && !a.ConsumerStep? && !a.StopperStep? && Next(s, a, max).Some?
    ensures Threads(Next(s, a, max).value)
  {
    hide Sum, Length, ProducerNext, ConsumerNext, StopperNext;
  }

  lemma NextKeeps(s: State, a: Action, max: nat)
    requires Inv(s, max) && Next(s, a, max).Some?
    ensures Inv(Next(s, a, max).value, max)
  {
    hide Books, Threads, Stopping, SeekerNext, PusherNext, IdlerNext, PlayerNext, ResterNext, StopNext;
    StoppingOf(s);
    match a {
      case ProducerStep =>
        if SeeksRoom(s.producer) { SeekerBooks(s, max); SeekerThreads(s, max); } else { PusherKeeps(s, max); }
      case ConsumerStep =>
        if Idles(s.consumer) { IdlerBooks(s, max); IdlerThreads(s, max); } else { PlayerKeeps(s, max); }
      case StopperStep =>
        if Rests(s.stopper) { ResterBooks(s, max); ResterThreads(s, max); } else { StopKeeps(s, max); }
      case _ => OutsideBooks(s, a, max); OutsideThreads(s, a, max);
    }
  }

  lemma {:induction false} ExecKeeps(s: State, actions: seq<Action>, max: nat)
    requires Inv(s, max) && Exec(s, actions, max).Some?
    ensures Inv(Exec(s, actions, max).value, max)
    decreases actions
  {
    hide Inv, Next;
    if actions == [] {
    } else {
      NextKeeps(s, actions[0], max);
      ExecKeeps(Next(s, actions[0], max).value, actions[1..], max);
    }
  }
}
