/** The message queues of the server and the speaking thread: queue_message in
    src/server/server.c, and src/server/speaking.c.

    Every operation runs under element_free_mutex, so each is one atomic step on the
    queues.  What the queues do not hold is an argument of the step: whether some module
    is speaking, which clients are paused, and how the output module answers. */
module Scheduler {
  import opened CStrings

  /** What the scheduler reads of a message: its id, the client it came from, and the
      block it belongs to (0 outside a block). */
  datatype Message = Message(id: nat, uid: nat, reparted: nat)

  datatype Priority = Important | Ordinary | Text | Notification | Progress

  datatype Queues = Queues(p1: seq<Message>, p2: seq<Message>, p3: seq<Message>, p4: seq<Message>, p5: seq<Message>)
  {
    function Get(prio: Priority): seq<Message> {
      match prio
      case Important => p1
      case Ordinary => p2
      case Text => p3
      case Notification => p4
      case Progress => p5
    }

    function Set(prio: Priority, queue: seq<Message>): Queues {
      match prio
      case Important => this.(p1 := queue)
      case Ordinary => this.(p2 := queue)
      case Text => this.(p3 := queue)
      case Notification => this.(p4 := queue)
      case Progress => this.(p5 := queue)
    }
  }

  /** spoken lists the ids of the messages that the output modules took. */
  datatype State = State(queues: Queues, block: seq<Message>, paused: seq<Message>, current: Priority,
                         lastId: nat, spoken: seq<nat>)

  // ---- operations on one queue

  /** The tests by which messages are kept when a queue is thinned out. */
  datatype Test = NotOlderThan(id: nat) | NotFrom(uid: nat) | InBlock(gid: nat)

  predicate Keeps(t: Test, m: Message)
  {
    match t
    case NotOlderThan(id) => id <= m.id
    case NotFrom(uid) => m.uid != uid
    case InBlock(gid) => m.reparted == gid
  }

  function Kept(q: seq<Message>, t: Test): seq<Message>
  {
    if q == [] then []
    else (if Keeps(t, q[0]) then [q[0]] else []) + Kept(q[1..], t)
  }

  function RemoveAt(q: seq<Message>, i: nat): seq<Message>
    requires i < |q|
  {
    q[..i] + q[i + 1..]
  }

  /** stop_priority_except_first: the last message, or all messages of its block. */
  function LatestBlock(q: seq<Message>): seq<Message>
  {
    if q == [] then []
    else var last := q[|q| - 1];
         if last.reparted == 0 then [last] else Kept(q, InBlock(last.reparted))
  }

  function Latest(q: seq<Message>): seq<Message>
  {
    if q == [] then [] else [q[|q| - 1]]
  }

  /** g_list_insert_sorted with sortbyuid. */
  function InsertSorted(q: seq<Message>, m: Message): seq<Message>
  {
    if q == [] then [m]
    else if m.id <= q[0].id then [m] + q
    else [q[0]] + InsertSorted(q[1..], m)
  }

  /** The search for the place passes older messages. */
  lemma InsertPasses(q: seq<Message>, at: nat, m: Message)
    requires at <= |q|
    ensures q[..at] + InsertSorted(q[at..], m) ==
            if at < |q| && m.id > q[at].id then q[..at + 1] + InsertSorted(q[at + 1..], m)
            else q[..at] + [m] + q[at..]
  {
    if at < |q| {
      assert q[at..][1..] == q[at + 1..];
      assert q[..at + 1] == q[..at] + [q[at]];
    }
  }

  function InsertAll(q: seq<Message>, block: seq<Message>): seq<Message>
    decreases block
  {
    if block == [] then q else InsertAll(InsertSorted(q, block[0]), block[1..])
  }

  lemma InsertAllStep(q: seq<Message>, block: seq<Message>)
    ensures InsertAll(q, block) == if block == [] then q else InsertAll(InsertSorted(q, block[0]), block[1..])
  {
    hide InsertSorted;
  }

  /** Drop the messages at the end that belong to block gid; from client uid only,
      unless uid is 0. */
  function DropTail(q: seq<Message>, gid: nat, uid: nat): seq<Message>
  {
    if q != [] && q[|q| - 1].reparted == gid && (uid == 0 || q[|q| - 1].uid == uid)
    then DropTail(q[..|q| - 1], gid, uid)
    else q
  }

  /** The queue of the current priority after speaking_stop(uid). */
  function Stopped(q: seq<Message>, uid: nat): seq<Message>
  {
    if q != [] && q[|q| - 1].reparted != 0 && q[|q| - 1].uid == uid
    then DropTail(q, q[|q| - 1].reparted, uid)
    else q
  }

  /** ... after speaking_stop_all: the block that is dropped is always block 1. */
  function AllStopped(q: seq<Message>): seq<Message>
  {
    if q != [] && q[|q| - 1].reparted != 0 then DropTail(q, 1, 0) else q
  }

  /** The index of the first message whose client is not paused. */
  function FirstReady(q: seq<Message>, held: set<Message>): (r: Option<nat>)
    ensures r.Some? ==> r.value < |q|
  {
    if q == [] then None
    else if q[0] !in held then Some(0)
    else match FirstReady(q[1..], held)
         case None => None
         case Some(i) => Some(i + 1)
  }

  // ---- the steps

  /** resolve_priorities after a message of this priority was appended. */
  function Resolve(q: Queues, prio: Priority, speaking: bool, current: Priority): Queues
  {
    match prio
    case Important => q.(p4 := [], p5 := [])
    case Ordinary => q.(p3 := [], p4 := [], p5 := [])
    case Text => q.(p3 := LatestBlock(q.p3), p4 := [], p5 := [])
    case Notification => q.(p4 := if speaking && current != Notification then [] else LatestBlock(q.p4))
    case Progress => q.(p4 := [], p5 := if speaking then Latest(q.p5) else q.p5)
  }

  /** last_p5_block when a progress message comes: it is started anew unless its last
      message belongs to the same block (or both to none). */
  function BlockWith(block: seq<Message>, m: Message): seq<Message>
  {
    (if block != [] && block[|block| - 1].reparted == m.reparted then block else []) + [m]
  }

  function Enqueue(s: State, m: Message, prio: Priority, speaking: bool): State
  {
    s.(queues := Resolve(s.queues.Set(prio, s.queues.Get(prio) + [m]), prio, speaking, s.current),
       block := if prio.Progress? then BlockWith(s.block, m) else s.block)
  }

  /** The progress block is moved to the queue of ordinary messages. */
  function Transfer(s: State): State
    requires s.block != []
  {
    var q := s.queues;
    var last := s.block[|s.block| - 1];
    s.(queues := q.(p2 := InsertAll(q.p2, s.block), p3 := Kept(q.p3, NotOlderThan(last.id)), p4 := [], p5 := []),
       block := [], current := Ordinary)
  }

  /** The priorities, the most important first. */
  function Level(n: nat): Priority
    requires n < 5
  {
    match n
    case 0 => Important
    case 1 => Ordinary
    case 2 => Text
    case 3 => Notification
    case _ => Progress
  }

  /** The next message to speak and its queue, among the priorities from n on. */
  function Pick(q: Queues, held: set<Message>, n: nat): (r: Option<(Priority, nat)>)
    requires n <= 5
    ensures r.Some? ==> r.value.1 < |q.Get(r.value.0)|
    decreases 5 - n
  {
    if n == 5 then None
    else match FirstReady(q.Get(Level(n)), held)
         case Some(i) => Some((Level(n), i))
         case None => Pick(q, held, n + 1)
  }

  /** What becomes of a message taken from its queue. */
  datatype Outcome =
    | Held    // its client was paused in the meantime
    | Failed  // the output module refused it
    | Said

  function Deliver(s: State, m: Message, outcome: Outcome): State
  {
    match outcome
    case Held => s.(paused := s.paused + [m])
    case Failed => s
    case Said =>
      s.(spoken := s.spoken + [m.id],
         block := if s.block != [] && s.block[|s.block| - 1].reparted == m.reparted then [] else s.block)
  }

  /** One turn of speak() that gets as far as the queues. */
  function Turn(s: State, held: set<Message>, outcome: Outcome): State
  {
    if s.block != [] && s.queues.p5 == [] then Transfer(s)
    else match Pick(s.queues, held, 0)
         case None => s
         case Some((prio, i)) =>
           var q := s.queues.Get(prio);
           Deliver(s.(queues := s.queues.Set(prio, RemoveAt(q, i)), current := prio), q[i], outcome)
  }

  datatype Event =
    | Queue(uid: nat, reparted: nat, prio: Priority, speaking: bool)  // a client's new message
    | SpeakTurn(held: set<Message>, outcome: Outcome)
    | Pause(m: Message)                                               // the message being spoken
    | TakePaused(held: set<Message>)                                  // RESUME takes one from the list
    | Reload(m: Message, prio: Priority, speaking: bool)              // ... and queues it again
    | Stop(uid: nat, speaking: bool)
    | StopAll
    | Cancel(uid: nat, speaking: bool)
    | CancelAll

  function Step(s: State, e: Event): State
  {
    match e
    case Queue(uid, reparted, prio, speaking) =>
      var id := s.lastId + 1;
      Enqueue(s.(lastId := id), Message(id, uid, reparted), prio, speaking)
    case SpeakTurn(held, outcome) => Turn(s, held, outcome)
    case Pause(m) => s.(paused := s.paused + [m])
    case TakePaused(held) =>
      (match FirstReady(s.paused, held)
       case None => s
       case Some(i) => s.(paused := RemoveAt(s.paused, i)))
    case Reload(m, prio, speaking) => Enqueue(s, m.(reparted := 0), prio, speaking)
    case Stop(uid, speaking) => StopStep(s, uid, speaking)
    case StopAll => s.(queues := s.queues.Set(s.current, AllStopped(s.queues.Get(s.current))))
    case Cancel(uid, speaking) => CancelStep(StopStep(s, uid, speaking), uid)
    case CancelAll => s.(queues := Queues([], [], [], [], []))
  }

  /** speaking_stop; speaking tells whether the client uid is the one being spoken. */
  function StopStep(s: State, uid: nat, speaking: bool): State
  {
    if !speaking then s
    else s.(queues := s.queues.Set(s.current, Stopped(s.queues.Get(s.current), uid)))
  }

  /** stop_from_uid. */
  function CancelStep(s: State, uid: nat): State
  {
    var q, t := s.queues, NotFrom(uid);
    s.(queues := Queues(Kept(q.p1, t), Kept(q.p2, t), Kept(q.p3, t), Kept(q.p4, t), Kept(q.p5, t)))
  }

  // ---- the scheduler as the server runs it

  lemma {:induction false} KeptAppend(a: seq<Message>, b: seq<Message>, t: Test)
    ensures Kept(a + b, t) == Kept(a, t) + Kept(b, t)
  {
    if a == [] {
      assert a + b == b;
    } else {
      assert (a + b)[1..] == a[1..] + b;
      KeptAppend(a[1..], b, t);
    }
  }

  lemma {:induction false} KeptAll(q: seq<Message>, t: Test)
    requires forall m | m in q :: Keeps(t, m)
    ensures Kept(q, t) == q
  {
    if q == [] {
    } else {
      assert q[0] in q && forall m | m in q[1..] :: m in q;
      KeptAll(q[1..], t);
    }
  }

  /** Removing a message that the test drops does not change what is kept. */
  lemma KeptRemove(q: seq<Message>, i: nat, t: Test)
    requires i < |q| && !Keeps(t, q[i])
    ensures Kept(RemoveAt(q, i), t) == Kept(q, t)
  {
    assert q == q[..i] + ([q[i]] + q[i + 1..]);
    KeptAppend(q[..i], [q[i]] + q[i + 1..], t);
    KeptAppend(q[..i], q[i + 1..], t);
  }

  /** The loop state of a scan that removes as it goes. */
  ghost predicate Scanned(q: seq<Message>, at: nat, original: seq<Message>, t: Test)
  {
    at <= |q| && Kept(q, t) == Kept(original, t) && forall i | 0 <= i < at :: Keeps(t, q[i])
  }

  lemma ScanEnds(q: seq<Message>, at: nat, original: seq<Message>, t: Test)
    requires Scanned(q, at, original, t) && at == |q|
    ensures q == Kept(original, t)
  {
    KeptAll(q, t);
  }

  /** left is q without the element at i, which is its first message that is not held. */
  ghost predicate TakesFirst(q: seq<Message>, held: set<Message>, i: nat, left: seq<Message>)
  {
    i < |q| && q[i] !in held && (forall k | 0 <= k < i :: q[k] in held) && left == q[..i] + q[i + 1..]
  }

  class Server {
    var p1: seq<Message>
    var p2: seq<Message>
    var p3: seq<Message>
    var p4: seq<Message>
    var p5: seq<Message>
    var lastP5Block: seq<Message>
    var pausedList: seq<Message>
    var currentPriority: Priority
    var lastMessageId: nat
    ghost var spoken: seq<nat>

    ghost function View(): State
      reads this
    {
      State(Queues(p1, p2, p3, p4, p5), lastP5Block, pausedList, currentPriority, lastMessageId, spoken)
    }

    constructor ()
      ensures View() == Initial()
    {
      p1, p2, p3, p4, p5 := [], [], [], [], [];
      lastP5Block, pausedList, currentPriority, lastMessageId, spoken := [], [], Text, 0, [];
    }

    function SpeakingGetQueue(priority: Priority): seq<Message>
      reads this
      ensures SpeakingGetQueue(priority) == View().queues.Get(priority)
    {
      match priority
      case Important => p1
      case Ordinary => p2
      case Text => p3
      case Notification => p4
      case Progress => p5
    }

    method SpeakingSetQueue(priority: Priority, queue: seq<Message>)
      modifies this
      ensures View() == old(View()).(queues := old(View()).queues.Set(priority, queue))
    {
      match priority
      case Important => p1 := queue;
      case Ordinary => p2 := queue;
      case Text => p3 := queue;
      case Notification => p4 := queue;
      case Progress => p5 := queue;
    }

    static method EmptyQueue(queue: seq<Message>) returns (left: seq<Message>)
      ensures left == []
    {
      left := queue;
      var num := |queue|;
      for i := 0 to num
        invariant |left| == num - i
      {
        left := left[1..];
      }
    }

    static method EmptyQueueByTime(queue: seq<Message>, id: nat) returns (left: seq<Message>)
      ensures left == Kept(queue, NotOlderThan(id))
    {
      hide Kept;
      left := queue;
      ghost var t := NotOlderThan(id);
      var at := 0;
      while at < |left|
        invariant Scanned(left, at, queue, t)
        decreases |left| - at
      {
        if left[at].id < id {
          KeptRemove(left, at, t);
          left := RemoveAt(left, at);
        } else {
          at := at + 1;
        }
      }
      ScanEnds(left, at, queue, t);
    }

    static method StopPriorityFromUid(queue: seq<Message>, uid: nat) returns (left: seq<Message>)
      ensures left == Kept(queue, NotFrom(uid))
    {
      hide Kept;
      left := queue;
      ghost var t := NotFrom(uid);
      var at := 0;
      while at < |left|
        invariant Scanned(left, at, queue, t)
        decreases |left|, |left| - at
      {
        if left[at].uid == uid {
          KeptRemove(left, at, t);
          left := RemoveAt(left, at);
          at := 0;
        } else {
          at := at + 1;
        }
      }
      ScanEnds(left, at, queue, t);
    }

    method StopPriority(priority: Priority)
      modifies this
      ensures View() == old(View()).(queues := old(View()).queues.Set(priority, []))
    {
      var queue := SpeakingGetQueue(priority);
      queue := EmptyQueue(queue);
      SpeakingSetQueue(priority, queue);
    }

    method StopPriorityOlderThan(priority: Priority, id: nat)
      modifies this
      ensures var q := old(View()).queues;
              View() == old(View()).(queues := q.Set(priority, Kept(q.Get(priority), NotOlderThan(id))))
    {
      var queue := SpeakingGetQueue(priority);
      queue := EmptyQueueByTime(queue, id);
      SpeakingSetQueue(priority, queue);
    }

    method StopFromUid(uid: nat)
      modifies this
      ensures View() == CancelStep(old(View()), uid)
    {
      p1 := StopPriorityFromUid(p1, uid);
      p2 := StopPriorityFromUid(p2, uid);
      p3 := StopPriorityFromUid(p3, uid);
      p4 := StopPriorityFromUid(p4, uid);
      p5 := StopPriorityFromUid(p5, uid);
    }

    method StopPriorityExceptFirst(priority: Priority)
      modifies this
      ensures var q := old(View()).queues;
              View() == old(View()).(queues := q.Set(priority, LatestBlock(q.Get(priority))))
    {
      hide Kept;
      var queue := SpeakingGetQueue(priority);
      if queue == [] {
        return;
      }
      var msg := queue[|queue| - 1];
      if msg.reparted <= 0 {
        SpeakingSetQueue(priority, queue[..|queue| - 1]);
        StopPriority(priority);
        SpeakingSetQueue(priority, [msg]);
      } else {
        ghost var t := InBlock(msg.reparted);
        ghost var original := queue;
        var at := 0;
        while at < |queue|
          invariant View() == old(View()) && Scanned(queue, at, original, t)
          decreases |queue| - at
        {
          if queue[at].reparted != msg.reparted {
            KeptRemove(queue, at, t);
            queue := RemoveAt(queue, at);
          } else {
            at := at + 1;
          }
        }
        ScanEnds(queue, at, original, t);
        SpeakingSetQueue(priority, queue);
      }
    }

    method ResolvePriorities(priority: Priority, speaking: bool)
      modifies this
      ensures var s := old(View());
              View() == s.(queues := Resolve(s.queues, priority, speaking, s.current))
    {
      hide Kept, LatestBlock;
      match priority {
        case Important =>
          StopPriority(Notification);
          StopPriority(Progress);
        case Ordinary =>
          StopPriority(Text);
          StopPriority(Notification);
          StopPriority(Progress);
        case Text =>
          StopPriorityExceptFirst(Text);
          StopPriority(Notification);
          StopPriority(Progress);
        case Notification =>
          StopPriorityExceptFirst(Notification);
          if speaking && currentPriority != Notification {
            StopPriority(Notification);
          }
        case Progress =>
          StopPriority(Notification);
          if speaking && p5 != [] {
            var last := p5[|p5| - 1];
            p5 := EmptyQueue(p5[..|p5| - 1]);
            p5 := [last];
          }
      }
    }

    /** The part of queue_message under the mutex. */
    method InsertMessage(m: Message, priority: Priority, speaking: bool)
      modifies this
      ensures View() == Enqueue(old(View()), m, priority, speaking)
    {
      hide Resolve;
      match priority {
        case Important => p1 := p1 + [m];
        case Ordinary => p2 := p2 + [m];
        case Text => p3 := p3 + [m];
        case Notification => p4 := p4 + [m];
        case Progress =>
          p5 := p5 + [m];
          if lastP5Block == [] || lastP5Block[|lastP5Block| - 1].reparted != m.reparted {
            lastP5Block := [];
          }
          lastP5Block := lastP5Block + [m];
      }
      ResolvePriorities(priority, speaking);
    }

    /** queue_message for a new message on a client connection. */
    method QueueMessage(uid: nat, reparted: nat, priority: Priority, speaking: bool) returns (id: nat)
      modifies this
      ensures View() == Step(old(View()), Queue(uid, reparted, priority, speaking))
      ensures id == lastMessageId == old(lastMessageId) + 1
    {
      hide Resolve, BlockWith;
      lastMessageId := lastMessageId + 1;
      id := lastMessageId;
      InsertMessage(Message(id, uid, reparted), priority, speaking);
    }

    /** reload_message: a resumed message keeps its id and leaves its block. */
    method ReloadMessage(m: Message, priority: Priority, speaking: bool)
      modifies this
      ensures View() == Step(old(View()), Reload(m, priority, speaking))
    {
      hide Enqueue;
      InsertMessage(m.(reparted := 0), priority, speaking);
    }

    static method FindReady(queue: seq<Message>, held: set<Message>) returns (found: Option<nat>)
      ensures found == FirstReady(queue, held)
    {
      var gl := 0;
      assert queue[0..] == queue;
      while gl < |queue| && queue[gl] in held
        invariant gl <= |queue|
        invariant FirstReady(queue, held) == match FirstReady(queue[gl..], held)
                                             case None => None
                                             case Some(i) => Some(i + gl)
      {
        assert queue[gl..][1..] == queue[gl + 1..];
        gl := gl + 1;
      }
      found := if gl < |queue| then Some(gl) else None;
    }

    method GetMessageFromQueues(held: set<Message>) returns (message: Option<Message>)
      modifies this
      ensures var s := old(View());
              match Pick(s.queues, held, 0)
              case None => message == None && View() == s
              case Some((prio, i)) =>
                message == Some(s.queues.Get(prio)[i])
                && View() == s.(queues := s.queues.Set(prio, RemoveAt(s.queues.Get(prio), i)), current := prio)
    {
      hide FirstReady;
      for n := 0 to 5
        invariant View() == old(View())
        invariant Pick(View().queues, held, 0) == Pick(View().queues, held, n)
      {
        var prio := Level(n);
        var queue := SpeakingGetQueue(prio);
        var gl := FindReady(queue, held);
        if gl.Some? {
          SpeakingSetQueue(prio, RemoveAt(queue, gl.value));
          currentPriority := prio;
          return Some(queue[gl.value]);
        }
      }
      return None;
    }

    static method ListInsertSorted(list: seq<Message>, m: Message) returns (result: seq<Message>)
      ensures result == InsertSorted(list, m)
    {
      hide InsertSorted;
      var at := 0;
      assert list[0..] == list && list[..0] + InsertSorted(list, m) == InsertSorted(list, m);
      while at < |list| && m.id > list[at].id
        invariant at <= |list|
        invariant InsertSorted(list, m) == list[..at] + InsertSorted(list[at..], m)
      {
        InsertPasses(list, at, m);
        at := at + 1;
      }
      InsertPasses(list, at, m);
      result := list[..at] + [m] + list[at..];
    }

    /** One turn of the loop in speak(), from the handling of the progress block on. */
    method SpeakOnce(held: set<Message>, outcome: Outcome)
      modifies this
      ensures View() == Step(old(View()), SpeakTurn(held, outcome))
    {
      hide Pick, Kept, InsertSorted, InsertAll;
      if |lastP5Block| != 0 && |p5| == 0 {
        TransferBlock();
        return;
      }
      var got := GetMessageFromQueues(held);
      if got.None? {
        return;
      }
      var message := got.value;
      if outcome.Held? {
        pausedList := pausedList + [message];
        return;
      }
      if outcome.Failed? {
        return;
      }
      spoken := spoken + [message.id];
      if lastP5Block != [] {
        var p5Message := lastP5Block[|lastP5Block| - 1];
        if p5Message.reparted == message.reparted {
          lastP5Block := [];
        }
      }
    }

    method TransferBlock()
      requires lastP5Block != []
      modifies this
      ensures View() == Transfer(old(View()))
    {
      hide Kept, InsertSorted, InsertAll;
      var message := lastP5Block[0];
      while |lastP5Block| != 0
        invariant View() == old(View()).(queues := old(View()).queues.(p2 := p2), block := lastP5Block)
        invariant InsertAll(p2, lastP5Block) == InsertAll(old(p2), old(lastP5Block))
        invariant lastP5Block != [] ==> lastP5Block[|lastP5Block| - 1] == old(lastP5Block[|lastP5Block| - 1])
        invariant lastP5Block == [] ==> message == old(lastP5Block[|lastP5Block| - 1])
        decreases |lastP5Block|
      {
        InsertAllStep(p2, lastP5Block);
        message := lastP5Block[0];
        p2 := ListInsertSorted(p2, message);
        lastP5Block := lastP5Block[1..];
      }
      InsertAllStep(p2, []);
      currentPriority := Ordinary;
      StopPriorityOlderThan(Text, message.id);
      StopPriority(Notification);
      StopPriority(Progress);
    }

    /** speaking_pause, when the module confirms the pause of message. */
    method PauseCurrent(message: Message)
      modifies this
      ensures View() == Step(old(View()), Pause(message))
    {
      pausedList := pausedList + [message];
    }

    /** The search of the paused list when RESUME was requested. */
    method NextResumed(held: set<Message>) returns (message: Option<Message>)
      modifies this
      ensures View() == Step(old(View()), TakePaused(held)) == old(View()).(paused := pausedList)
      ensures message.None? <==> forall m | m in old(pausedList) :: m in held
      ensures match message
              case None => pausedList == old(pausedList)
              case Some(m) => exists i :: 0 <= i < |old(pausedList)| && old(pausedList)[i] == m
                                        && TakesFirst(old(pausedList), held, i, pausedList)
    {
      ReadyIsNotHeld(pausedList, held);
      var gl := FindReady(pausedList, held);
      if gl.None? {
        return None;
      }
      message := Some(pausedList[gl.value]);
      pausedList := RemoveAt(pausedList, gl.value);
      assert TakesFirst(old(pausedList), held, gl.value, pausedList);
    }

    static method DropBlock(queue: seq<Message>, gid: nat, uid: nat) returns (left: seq<Message>)
      ensures left == DropTail(queue, gid, uid)
    {
      left := queue;
      while true
        invariant DropTail(left, gid, uid) == DropTail(queue, gid, uid)
        decreases |left|
      {
        if left == [] {
          return;
        }
        var msg := left[|left| - 1];
        if msg.reparted == gid && (uid == 0 || msg.uid == uid) {
          left := left[..|left| - 1];
        } else {
          return;
        }
      }
    }

    method SpeakingStop(uid: nat, speaking: bool)
      requires uid != 0
      modifies this
      ensures View() == Step(old(View()), Stop(uid, speaking))
    {
      if speaking {
        var queue := SpeakingGetQueue(currentPriority);
        if queue == [] {
          return;
        }
        var msg := queue[|queue| - 1];
        if msg.reparted != 0 && msg.uid == uid {
          queue := DropBlock(queue, msg.reparted, uid);
          SpeakingSetQueue(currentPriority, queue);
        }
      }
    }

    method SpeakingStopAll()
      modifies this
      ensures View() == Step(old(View()), StopAll)
    {
      var queue := SpeakingGetQueue(currentPriority);
      if queue == [] {
        return;
      }
      if queue[|queue| - 1].reparted != 0 {
        queue := DropBlock(queue, 1, 0);
        SpeakingSetQueue(currentPriority, queue);
      }
    }

    method SpeakingCancel(uid: nat, speaking: bool)
      requires uid != 0
      modifies this
      ensures View() == Step(old(View()), Event.Cancel(uid, speaking))
    {
      SpeakingStop(uid, speaking);
      StopFromUid(uid);
    }

    method SpeakingCancelAll()
      modifies this
      ensures View() == Step(old(View()), Event.CancelAll)
    {
      StopPriority(Important);
      StopPriority(Ordinary);
      StopPriority(Text);
      StopPriority(Notification);
      StopPriority(Progress);
    }
  }

  lemma {:induction false} ReadyIsNotHeld(q: seq<Message>, held: set<Message>)
    ensures match FirstReady(q, held)
            case None => forall m | m in q :: m in held
            case Some(i) => q[i] !in held && forall k | 0 <= k < i :: q[k] in held
  {
    if q == [] || q[0] !in held {
    } else {
      ReadyIsNotHeld(q[1..], held);
      assert q == [q[0]] + q[1..];
    }
  }

  function Initial(): State
  {
    State(Queues([], [], [], [], []), [], [], Text, 0, [])
  }
}
