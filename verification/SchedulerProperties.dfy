/** What every run of the scheduler keeps. */
module SchedulerProperties {
  import opened CStrings
  import opened Scheduler

  /** The state after a run of events. */
  function Run(s: State, events: seq<Event>): State
    decreases events
  {
    if events == [] then s else Run(Step(s, events[0]), events[1..])
  }

  /** A run in which no client resumes. */
  predicate NoResume(events: seq<Event>)
  {
    forall i | 0 <= i < |events| :: !events[i].Reload?
  }

  // ---- orders on queues

  ghost predicate Ascending(q: seq<Message>)
  {
    forall i, j | 0 <= i < j < |q| :: q[i].id < q[j].id
  }

  /** Every message of a is older than every message of b. */
  ghost predicate Before(a: seq<Message>, b: seq<Message>)
  {
    forall x, y | x in a && y in b :: x.id < y.id
  }

  ghost predicate Apart(a: seq<Message>, b: seq<Message>)
  {
    forall x, y | x in a && y in b :: x.id != y.id
  }

  ghost predicate AtMost(q: seq<Message>, lastId: nat)
  {
    forall x | x in q :: x.id <= lastId
  }

  ghost predicate Unspoken(q: seq<Message>, spoken: seq<nat>)
  {
    forall x | x in q :: x.id !in spoken
  }

  /** At most one message, or messages of one block only. */
  ghost predicate Uniform(q: seq<Message>)
  {
    |q| <= 1 || (q[0].reparted != 0 && forall x | x in q :: x.reparted == q[0].reparted)
  }

  /** One group: a block, or messages that all stand outside blocks. */
  ghost predicate OneGroup(q: seq<Message>)
  {
    forall x, y | x in q && y in q :: x.reparted == y.reparted
  }

  /** Messages that a and b share are the same messages. */
  ghost predicate Copies(a: seq<Message>, b: seq<Message>)
  {
    forall x, y | x in a && y in b && x.id == y.id :: x == y
  }

  // ---- queues only lose messages

  /** a is b with messages taken out. */
  ghost predicate Thinned(a: seq<Message>, b: seq<Message>)
  {
    |a| <= |b| && (forall x | x in a :: x in b) && (Ascending(b) ==> Ascending(a))
  }

  lemma ThinnedTrans(a: seq<Message>, b: seq<Message>, c: seq<Message>)
    requires Thinned(a, b) && Thinned(b, c)
    ensures Thinned(a, c)
  {
    hide Ascending;
  }

  lemma AscendingCons(x: Message, q: seq<Message>)
    ensures Ascending([x] + q) <==> Ascending(q) && forall y | y in q :: x.id < y.id
  {
    var s := [x] + q;
    assert forall j | 0 < j < |s| :: s[j] == q[j - 1] && q[j - 1] in q;
    if Ascending(s) {
      forall i, j | 0 <= i < j < |q| ensures q[i].id < q[j].id {
        assert s[i + 1].id < s[j + 1].id;
      }
      forall i | 0 <= i < |q| ensures x.id < q[i].id {
        assert s[0].id < s[i + 1].id;
      }
    }
  }

  lemma {:induction false} KeptThins(q: seq<Message>, t: Test)
    ensures Thinned(Kept(q, t), q)
    ensures forall x | x in Kept(q, t) :: Keeps(t, x)
  {
    hide Ascending;
    if q == [] {
    } else {
      KeptThins(q[1..], t);
      var k := Kept(q[1..], t);
      assert q == [q[0]] + q[1..];
      AscendingCons(q[0], q[1..]);
      AscendingCons(q[0], k);
      assert Keeps(t, q[0]) ==> Kept(q, t) == [q[0]] + k;
      assert !Keeps(t, q[0]) ==> Kept(q, t) == k;
    }
  }

  lemma RemoveThins(q: seq<Message>, i: nat)
    requires i < |q|
    ensures Thinned(RemoveAt(q, i), q)
    ensures Ascending(q) ==> forall x | x in RemoveAt(q, i) :: x.id != q[i].id
  {}

  lemma PrefixThins(q: seq<Message>, k: nat)
    requires k <= |q|
    ensures Thinned(q[..k], q)
  {}

  lemma {:induction false} DropTailThins(q: seq<Message>, gid: nat, uid: nat)
    ensures Thinned(DropTail(q, gid, uid), q)
  {
    if q == [] || q[|q| - 1].reparted != gid || (uid != 0 && q[|q| - 1].uid != uid) {
    } else {
      DropTailThins(q[..|q| - 1], gid, uid);
      PrefixThins(q, |q| - 1);
      ThinnedTrans(DropTail(q, gid, uid), q[..|q| - 1], q);
    }
  }

  lemma LatestThins(q: seq<Message>)
    ensures Thinned(Latest(q), q) && Thinned(LatestBlock(q), q) && Uniform(LatestBlock(q))
  {
    if q != [] && q[|q| - 1].reparted != 0 {
      var t := InBlock(q[|q| - 1].reparted);
      KeptThins(q, t);
      assert Kept(q, t) != [] ==> Kept(q, t)[0] in Kept(q, t);
    }
  }

  /** Every queue of a is the one of b with messages taken out. */
  ghost predicate AllThinned(a: Queues, b: Queues)
  {
    Thinned(a.p1, b.p1) && Thinned(a.p2, b.p2) && Thinned(a.p3, b.p3) && Thinned(a.p4, b.p4) && Thinned(a.p5, b.p5)
  }

  lemma SetThins(q: Queues, prio: Priority, queue: seq<Message>)
    requires Thinned(queue, q.Get(prio))
    ensures AllThinned(q.Set(prio, queue), q)
  {
    hide Thinned;
    ThinnedRefl(q);
  }

  lemma ThinnedRefl(q: Queues)
    ensures AllThinned(q, q)
  {}

  lemma EmptyThins(q: seq<Message>)
    ensures Thinned([], q)
  {}

  // ---- the invariant of runs without RESUME

  /** Each queue holds its messages in the order of their age; text messages are younger
      than ordinary ones, progress messages younger than these and important ones, and
      notifications younger than everything. */
  ghost predicate InAgeOrder(q: Queues)
  {
    Ascending(q.p1) && Ascending(q.p2) && Ascending(q.p3) && Ascending(q.p4) && Ascending(q.p5)
    && Before(q.p2, q.p3)
    && Before(q.p1, q.p5) && Before(q.p2, q.p5) && Before(q.p3, q.p5)
    && Before(q.p1, q.p4) && Before(q.p2, q.p4) && Before(q.p3, q.p4) && Before(q.p5, q.p4)
  }

  /** No message is in two queues, has been spoken, or has an id not yet given out. */
  ghost predicate QueuesFresh(q: Queues, lastId: nat, spoken: seq<nat>)
  {
    Apart(q.p1, q.p2) && Apart(q.p1, q.p3)
    && AtMost(q.p1, lastId) && AtMost(q.p2, lastId) && AtMost(q.p3, lastId) && AtMost(q.p4, lastId)
    && AtMost(q.p5, lastId)
    && Unspoken(q.p1, spoken) && Unspoken(q.p2, spoken) && Unspoken(q.p3, spoken) && Unspoken(q.p4, spoken)
    && Unspoken(q.p5, spoken)
  }

  /** The progress block is one group of unspoken messages; only the queue of progress
      messages may hold the same ones. */
  ghost predicate BlockFresh(block: seq<Message>, q: Queues, lastId: nat, spoken: seq<nat>)
  {
    Ascending(block) && OneGroup(block) && AtMost(block, lastId) && Unspoken(block, spoken)
    && Apart(block, q.p1) && Apart(block, q.p2) && Apart(block, q.p3) && Before(block, q.p4) && Copies(block, q.p5)
  }

  ghost predicate SpokenOnce(spoken: seq<nat>, lastId: nat)
  {
    (forall i, j | 0 <= i < j < |spoken| :: spoken[i] != spoken[j])
    && forall i | 0 <= i < |spoken| :: spoken[i] <= lastId
  }

  ghost predicate Inv(s: State)
  {
    InAgeOrder(s.queues)
    && QueuesFresh(s.queues, s.lastId, s.spoken)
    && BlockFresh(s.block, s.queues, s.lastId, s.spoken)
    && SpokenOnce(s.spoken, s.lastId)
  }

  /** Taking messages out of queues keeps the invariant. */
  lemma ThinKeeps(s: State, q: Queues)
    requires Inv(s) && AllThinned(q, s.queues)
    ensures Inv(s.(queues := q))
  {
    hide Thinned, QueuesFresh, BlockFresh, InAgeOrder, SpokenOnce;
    ThinKeepsOrder(s.queues, q);
    ThinKeepsFresh(s, q);
  }

  lemma ThinKeepsOrder(b: Queues, a: Queues)
    requires InAgeOrder(b) && AllThinned(a, b)
    ensures InAgeOrder(a)
  {
    hide Ascending;
  }

  lemma ThinKeepsFresh(s: State, q: Queues)
    requires Inv(s) && AllThinned(q, s.queues)
    ensures QueuesFresh(q, s.lastId, s.spoken) && BlockFresh(s.block, q, s.lastId, s.spoken)
  {
    hide Ascending, OneGroup, SpokenOnce, InAgeOrder;
  }

  lemma InitialInv()
    ensures Inv(Initial())
  {}

  // ---- a new message

  lemma AppendNew(q: seq<Message>, m: Message)
    requires Ascending(q) && forall x | x in q :: x.id < m.id
    ensures Ascending(q + [m])
    ensures forall x | x in q + [m] :: x in q || x == m
  {}

  /** A queue that took in the newest message still holds only messages younger than
      those of another queue. */
  lemma BeforeNewest(other: seq<Message>, q: seq<Message>, m: Message, thinned: seq<Message>)
    requires Before(other, q) && (forall x | x in other :: x.id < m.id) && Thinned(thinned, q + [m])
    ensures Before(other, thinned)
  {
    hide Ascending;
  }

  lemma BeforeEmpty(q: seq<Message>)
    ensures Before(q, []) && Before([], q)
  {}

  /** The queues after a new message of some priority. */
  lemma NewMessageOrder(q: Queues, m: Message, prio: Priority, speaking: bool, current: Priority)
    requires InAgeOrder(q)
    requires forall p: Priority, x | x in q.Get(p) :: x.id < m.id
    ensures InAgeOrder(Resolve(q.Set(prio, q.Get(prio) + [m]), prio, speaking, current))
  {
    hide LatestBlock, Latest, Ascending, Before;
    assert q.Get(Important) == q.p1 && q.Get(Ordinary) == q.p2 && q.Get(Text) == q.p3 && q.Get(Progress) == q.p5;
    AppendNew(q.Get(prio), m);
    LatestThins(q.Get(prio) + [m]);
    EmptyThins(q.p4 + [m]);
    EmptyThins(q.p5 + [m]);
    ThinnedSelf(q.p5 + [m]);
    NoneAscends();
    forall p: Priority ensures Before(q.Get(p), []) && Before([], q.Get(p)) { BeforeEmpty(q.Get(p)); }
    BeforeEmpty([]); BeforeEmpty(q.p1 + [m]); BeforeEmpty(q.p2 + [m]);
    assert forall p: Priority, x | x in q.Get(p) :: x.id < m.id;
    var r := Resolve(q.Set(prio, q.Get(prio) + [m]), prio, speaking, current);
    if prio.Text? {
      BeforeNewest(q.Get(Ordinary), q.p3, m, r.p3);
      BeforeEmpty(r.p3);
    } else if prio.Notification? || prio.Progress? {
      forall p: Priority | p != prio && p != Notification ensures Before(q.Get(p), r.Get(prio)) {
        BeforeNewest(q.Get(p), q.Get(prio), m, r.Get(prio));
      }
      BeforeEmpty(r.p5);
    }
  }

  lemma ThinnedSelf(q: seq<Message>)
    ensures Thinned(q, q)
  {}

  lemma NoneAscends()
    ensures Ascending([])
  {}

  // ---- the steps keep the invariant

  lemma ResolveMembers(q: Queues, m: Message, prio: Priority, speaking: bool, current: Priority)
    ensures var r := Resolve(q.Set(prio, q.Get(prio) + [m]), prio, speaking, current);
            (forall x | x in r.p1 :: x in q.p1 || (prio.Important? && x == m))
            && (forall x | x in r.p2 :: x in q.p2 || (prio.Ordinary? && x == m))
            && (forall x | x in r.p3 :: x in q.p3 || (prio.Text? && x == m))
            && (forall x | x in r.p4 :: x in q.p4 || (prio.Notification? && x == m))
            && (forall x | x in r.p5 :: x in q.p5 || (prio.Progress? && x == m))
            && (prio.Progress? ==> r.p4 == [])
  {
    hide LatestBlock, Latest, Ascending;
    LatestThins(q.Get(prio) + [m]);
  }

  lemma QueuesFreshByQueue(q: Queues, lastId: nat, spoken: seq<nat>)
    ensures QueuesFresh(q, lastId, spoken) <==>
            Apart(q.p1, q.p2) && Apart(q.p1, q.p3)
            && forall p: Priority :: AtMost(q.Get(p), lastId) && Unspoken(q.Get(p), spoken)
  {
    hide Apart, AtMost, Unspoken;
    assert q.Get(Important) == q.p1 && q.Get(Ordinary) == q.p2 && q.Get(Text) == q.p3 && q.Get(Notification) == q.p4
           && q.Get(Progress) == q.p5;
  }

  lemma NewMessageFresh(q: Queues, lastId: nat, spoken: seq<nat>, m: Message, prio: Priority, speaking: bool,
                        current: Priority)
    requires QueuesFresh(q, lastId, spoken) && SpokenOnce(spoken, lastId) && m.id == lastId + 1
    ensures QueuesFresh(Resolve(q.Set(prio, q.Get(prio) + [m]), prio, speaking, current), lastId + 1, spoken)
  {
    hide Resolve;
    ResolveMembers(q, m, prio, speaking, current);
    assert forall i | 0 <= i < |spoken| :: spoken[i] <= lastId;
  }

  lemma BlockGrows(block: seq<Message>, m: Message)
    requires Ascending(block) && OneGroup(block) && forall x | x in block :: x.id < m.id
    ensures Ascending(BlockWith(block, m)) && OneGroup(BlockWith(block, m))
    ensures forall x | x in BlockWith(block, m) :: x in block || x == m
  {
    hide Ascending;
    AppendNew(block, m);
    AppendNew([], m);
    NoneAscends();
    assert block != [] ==> block[|block| - 1] in block;
  }

  /** The block of the last progress messages, taken with the queues in which some
      messages were thinned out and the newest was added. */
  lemma NewMessageBlock(s: State, m: Message, prio: Priority, speaking: bool)
    requires BlockFresh(s.block, s.queues, s.lastId, s.spoken) && QueuesFresh(s.queues, s.lastId, s.spoken)
    requires SpokenOnce(s.spoken, s.lastId) && m.id == s.lastId + 1
    ensures var t := Enqueue(s, m, prio, speaking);
            BlockFresh(t.block, t.queues, s.lastId + 1, s.spoken)
  {
    hide Resolve, Ascending, BlockWith, OneGroup;
    ResolveMembers(s.queues, m, prio, speaking, s.current);
    assert forall i | 0 <= i < |s.spoken| :: s.spoken[i] <= s.lastId;
    if prio.Progress? {
      BlockGrows(s.block, m);
    }
  }

  lemma QueueKeeps(s: State, uid: nat, reparted: nat, prio: Priority, speaking: bool)
    requires Inv(s)
    ensures Inv(Step(s, Queue(uid, reparted, prio, speaking)))
  {
    hide Resolve, BlockWith, InAgeOrder, QueuesFresh, BlockFresh, SpokenOnce;
    var m := Message(s.lastId + 1, uid, reparted);
    forall p: Priority, x | x in s.queues.Get(p) ensures x.id < m.id {
      QueuesFreshByQueue(s.queues, s.lastId, s.spoken);
      assert AtMost(s.queues.Get(p), s.lastId);
    }
    NewMessageOrder(s.queues, m, prio, speaking, s.current);
    NewMessageFresh(s.queues, s.lastId, s.spoken, m, prio, speaking, s.current);
    NewMessageBlock(s, m, prio, speaking);
    SpokenLater(s.spoken, s.lastId);
  }

  lemma SpokenLater(spoken: seq<nat>, lastId: nat)
    requires SpokenOnce(spoken, lastId)
    ensures SpokenOnce(spoken, lastId + 1)
  {}

  // ---- a turn of the speaking thread

  lemma {:induction false} InsertKeepsOrder(q: seq<Message>, m: Message)
    requires Ascending(q) && forall x | x in q :: x.id != m.id
    ensures Ascending(InsertSorted(q, m))
    ensures forall x :: x in InsertSorted(q, m) <==> x in q || x == m
  {
    hide Ascending;
    if q == [] {
      AppendNew([], m);
      assert [] + [m] == [m];
      NoneAscends();
    } else {
      assert q == [q[0]] + q[1..];
      AscendingCons(q[0], q[1..]);
      AscendingCons(m, q);
      if q[0].id < m.id {
        InsertKeepsOrder(q[1..], m);
        AscendingCons(q[0], InsertSorted(q[1..], m));
      }
    }
  }

  lemma {:induction false} InsertAllKeepsOrder(q: seq<Message>, block: seq<Message>)
    requires Ascending(q) && Ascending(block) && Apart(block, q)
    ensures Ascending(InsertAll(q, block))
    ensures forall x :: x in InsertAll(q, block) <==> x in q || x in block
    decreases block
  {
    hide Ascending, InsertSorted;
    if block == [] {
    } else {
      assert block == [block[0]] + block[1..];
      AscendingCons(block[0], block[1..]);
      InsertKeepsOrder(q, block[0]);
      InsertAllKeepsOrder(InsertSorted(q, block[0]), block[1..]);
    }
  }

  lemma LastIsNewest(q: seq<Message>)
    requires Ascending(q) && q != []
    ensures q[|q| - 1] in q && forall x | x in q :: x.id <= q[|q| - 1].id
  {}

  /** The transfer keeps the age order: text messages older than the last progress
      message are dropped. */
  lemma TransferKeeps(s: State)
    requires Inv(s) && s.block != [] && s.queues.p5 == []
    ensures Inv(Transfer(s))
  {
    hide Ascending, InsertAll, Kept;
    var q := s.queues;
    var last := s.block[|s.block| - 1];
    LastIsNewest(s.block);
    InsertAllKeepsOrder(q.p2, s.block);
    KeptThins(q.p3, NotOlderThan(last.id));
    NoneAscends();
  }

  /** Nothing is left of the message but copies in the progress block. */
  ghost predicate Taken(m: Message, s: State)
  {
    m.id <= s.lastId && m.id !in s.spoken && Copies(s.block, [m])
    && forall p: Priority :: Apart([m], s.queues.Get(p))
  }

  lemma QueuesApart(s: State, a: Priority, b: Priority)
    requires Inv(s) && a != b
    ensures Apart(s.queues.Get(a), s.queues.Get(b))
  {
    hide Ascending, AtMost, Unspoken, BlockFresh, SpokenOnce;
  }

  lemma TakenApart(s: State, prio: Priority, i: nat, p: Priority)
    requires Inv(s) && i < |s.queues.Get(prio)|
    ensures Apart([s.queues.Get(prio)[i]], s.queues.Set(prio, RemoveAt(s.queues.Get(prio), i)).Get(p))
  {
    hide QueuesFresh, BlockFresh, SpokenOnce, RemoveAt;
    var q := s.queues.Get(prio);
    assert q[i] in q;
    if p == prio {
      assert Ascending(q);
      RemoveThins(q, i);
    } else {
      QueuesApart(s, prio, p);
    }
  }

  /** Of a message that waits in a queue, the block has no copy but the same message. */
  lemma WaitingFacts(s: State, prio: Priority, m: Message)
    requires Inv(s) && m in s.queues.Get(prio)
    ensures m.id <= s.lastId && m.id !in s.spoken && Copies(s.block, [m])
  {
    hide InAgeOrder, Ascending, OneGroup, SpokenOnce;
  }

  lemma TakeKeeps(s: State, prio: Priority, i: nat)
    requires Inv(s) && i < |s.queues.Get(prio)|
    ensures var t := s.(queues := s.queues.Set(prio, RemoveAt(s.queues.Get(prio), i)), current := prio);
            Inv(t) && Taken(s.queues.Get(prio)[i], t)
  {
    hide Inv, RemoveAt, Copies;
    var q := s.queues.Get(prio);
    WaitingFacts(s, prio, q[i]);
    forall p: Priority ensures Apart([q[i]], s.queues.Set(prio, RemoveAt(q, i)).Get(p)) { TakenApart(s, prio, i, p); }
    RemoveThins(q, i);
    SetThins(s.queues, prio, RemoveAt(q, i));
    ThinKeeps(s, s.queues.Set(prio, RemoveAt(q, i)));
    CurrentKeeps(s.(queues := s.queues.Set(prio, RemoveAt(q, i))), prio);
  }

  lemma CurrentKeeps(s: State, prio: Priority)
    requires Inv(s)
    ensures Inv(s.(current := prio))
  {}

  lemma SaidFresh(s: State, m: Message)
    requires Inv(s) && Taken(m, s)
    ensures QueuesFresh(s.queues, s.lastId, s.spoken + [m.id]) && SpokenOnce(s.spoken + [m.id], s.lastId)
  {
    hide InAgeOrder, BlockFresh, AtMost;
    var q := s.queues;
    assert q.Get(Important) == q.p1 && q.Get(Ordinary) == q.p2 && q.Get(Text) == q.p3 && q.Get(Notification) == q.p4
           && q.Get(Progress) == q.p5;
    assert forall p: Priority :: Apart([m], q.Get(p));
    assert m in [m];
  }

  lemma SaidBlock(s: State, m: Message)
    requires Inv(s) && Taken(m, s)
    ensures BlockFresh(Deliver(s, m, Said).block, s.queues, s.lastId, s.spoken + [m.id])
  {
    hide InAgeOrder, QueuesFresh, SpokenOnce, Ascending;
    NoneAscends();
    assert m in [m];
    assert s.block != [] ==> s.block[|s.block| - 1] in s.block;
  }

  /** A message that is spoken leaves no copy: the block that holds one is cleared. */
  lemma DeliverKeeps(s: State, m: Message, outcome: Outcome)
    requires Inv(s) && Taken(m, s)
    ensures Inv(Deliver(s, m, outcome))
  {
    hide InAgeOrder, QueuesFresh, BlockFresh, SpokenOnce, Taken;
    SaidFresh(s, m);
    SaidBlock(s, m);
  }

  lemma TurnKeeps(s: State, held: set<Message>, outcome: Outcome)
    requires Inv(s)
    ensures Inv(Turn(s, held, outcome))
  {
    hide Inv, Transfer, Pick, Deliver, RemoveAt;
    if s.block != [] && s.queues.p5 == [] {
      TransferKeeps(s);
    } else {
      var r := Pick(s.queues, held, 0);
      if r.Some? {
        TakeKeeps(s, r.value.0, r.value.1);
        var q := s.queues.Get(r.value.0);
        DeliverKeeps(s.(queues := s.queues.Set(r.value.0, RemoveAt(q, r.value.1)), current := r.value.0), q[r.value.1],
                     outcome);
      }
    }
  }

  lemma StopKeeps(s: State, q: seq<Message>)
    requires Inv(s) && Thinned(q, s.queues.Get(s.current))
    ensures Inv(s.(queues := s.queues.Set(s.current, q)))
  {
    hide Inv, Thinned;
    SetThins(s.queues, s.current, q);
    ThinKeeps(s, s.queues.Set(s.current, q));
  }

  lemma StoppedThins(q: seq<Message>, uid: nat)
    ensures Thinned(Stopped(q, uid), q) && Thinned(AllStopped(q), q)
  {
    hide Thinned, DropTail;
    ThinnedSelf(q);
    if q != [] {
      DropTailThins(q, q[|q| - 1].reparted, uid);
      DropTailThins(q, 1, 0);
    }
  }

  lemma CancelThins(q: Queues, uid: nat)
    ensures var t := NotFrom(uid);
            AllThinned(Queues(Kept(q.p1, t), Kept(q.p2, t), Kept(q.p3, t), Kept(q.p4, t), Kept(q.p5, t)), q)
  {
    hide Thinned, Kept;
    var t := NotFrom(uid);
    KeptThins(q.p1, t); KeptThins(q.p2, t); KeptThins(q.p3, t); KeptThins(q.p4, t); KeptThins(q.p5, t);
  }

  lemma NoneThins(q: Queues)
    ensures AllThinned(Queues([], [], [], [], []), q)
  {
    hide Thinned;
    EmptyThins(q.p1); EmptyThins(q.p2); EmptyThins(q.p3); EmptyThins(q.p4); EmptyThins(q.p5);
  }

  /** Every step but the reloading of a resumed message keeps the invariant. */
  lemma StepKeeps(s: State, e: Event)
    requires Inv(s) && !e.Reload?
    ensures Inv(Step(s, e))
  {
    hide Inv, Enqueue, Turn, Stopped, AllStopped, Thinned, Kept, AllThinned;
    match e {
      case Queue(uid, reparted, prio, speaking) => QueueKeeps(s, uid, reparted, prio, speaking);
      case SpeakTurn(held, outcome) => TurnKeeps(s, held, outcome);
      case Pause(m) => PausedKeeps(s, s.paused + [m]);
      case TakePaused(held) => PausedKeeps(s, Step(s, e).paused);
      case Stop(uid, speaking) =>
        StoppedThins(s.queues.Get(s.current), uid);
        StopKeeps(s, Stopped(s.queues.Get(s.current), uid));
      case StopAll =>
        StoppedThins(s.queues.Get(s.current), 0);
        StopKeeps(s, AllStopped(s.queues.Get(s.current)));
      case Cancel(uid, speaking) =>
        StoppedThins(s.queues.Get(s.current), uid);
        StopKeeps(s, Stopped(s.queues.Get(s.current), uid));
        var t := StopStep(s, uid, speaking);
        CancelThins(t.queues, uid);
        ThinKeeps(t, CancelStep(t, uid).queues);
      case CancelAll =>
        NoneThins(s.queues);
        ThinKeeps(s, Queues([], [], [], [], []));
    }
  }

  lemma PausedKeeps(s: State, paused: seq<Message>)
    requires Inv(s)
    ensures Inv(s.(paused := paused))
  {}

  lemma {:induction false} RunKeeps(s: State, events: seq<Event>)
    requires Inv(s) && NoResume(events)
    ensures Inv(Run(s, events))
    decreases events
  {
    hide Inv, Step;
    if events == [] {
    } else {
      StepKeeps(s, events[0]);
      RunKeeps(Step(s, events[0]), events[1..]);
    }
  }

  /** In every run in which no client resumes, no message is spoken twice, although each
      progress message is also kept in the progress block. */
  lemma AtMostOnce(events: seq<Event>)
    requires NoResume(events)
    ensures var spoken := Run(Initial(), events).spoken;
            forall i, j | 0 <= i < j < |spoken| :: spoken[i] != spoken[j]
  {
    hide Run, BlockFresh, QueuesFresh, InAgeOrder, Initial;
    InitialInv();
    RunKeeps(Initial(), events);
  }

  /** ... and a message that was spoken waits in no queue and not in the block. */
  lemma SpokenIsGone(events: seq<Event>, prio: Priority, m: Message)
    requires NoResume(events)
    ensures var s := Run(Initial(), events);
            m in s.queues.Get(prio) || m in s.block ==> m.id !in s.spoken
  {
    hide Run, InAgeOrder, Initial, SpokenOnce;
    InitialInv();
    RunKeeps(Initial(), events);
  }

  /** In every run in which no client resumes, the queues stay in age order. */
  lemma AgeOrder(events: seq<Event>)
    requires NoResume(events)
    ensures InAgeOrder(Run(Initial(), events).queues)
  {
    hide Run, BlockFresh, QueuesFresh, InAgeOrder, SpokenOnce, Initial;
    InitialInv();
    RunKeeps(Initial(), events);
  }

  // ---- block uniformity, in every run

  ghost predicate BlocksUniform(s: State)
  {
    Uniform(s.queues.p3) && Uniform(s.queues.p4)
  }

  lemma ThinnedUniform(a: seq<Message>, b: seq<Message>)
    requires Thinned(a, b) && Uniform(b)
    ensures Uniform(a)
  {
    hide Ascending;
    if |a| > 1 {
      assert a[0] in a;
    }
  }

  lemma AllThinnedUniform(q: Queues, s: State)
    requires AllThinned(q, s.queues) && BlocksUniform(s)
    ensures Uniform(q.p3) && Uniform(q.p4)
  {
    hide Thinned, Uniform;
    ThinnedUniform(q.p3, s.queues.p3);
    ThinnedUniform(q.p4, s.queues.p4);
  }

  lemma EnqueueUniform(s: State, m: Message, prio: Priority, speaking: bool)
    requires BlocksUniform(s)
    ensures BlocksUniform(Enqueue(s, m, prio, speaking))
  {
    hide LatestBlock, Latest, Thinned, BlockWith;
    LatestThins(s.queues.p3 + [m]);
    LatestThins(s.queues.p4 + [m]);
  }

  lemma TurnUniform(s: State, held: set<Message>, outcome: Outcome)
    requires BlocksUniform(s)
    ensures BlocksUniform(Turn(s, held, outcome))
  {
    hide Pick, Thinned, RemoveAt, Uniform, Kept, InsertAll;
    if s.block != [] && s.queues.p5 == [] {
      KeptThins(s.queues.p3, NotOlderThan(s.block[|s.block| - 1].id));
      ThinnedUniform(Transfer(s).queues.p3, s.queues.p3);
      EmptyThins(s.queues.p4);
      ThinnedUniform([], s.queues.p4);
    } else {
      var r := Pick(s.queues, held, 0);
      if r.Some? {
        var q := s.queues.Get(r.value.0);
        RemoveThins(q, r.value.1);
        SetThins(s.queues, r.value.0, RemoveAt(q, r.value.1));
        AllThinnedUniform(s.queues.Set(r.value.0, RemoveAt(q, r.value.1)), s);
      }
    }
  }

  lemma StepUniform(s: State, e: Event)
    requires BlocksUniform(s)
    ensures BlocksUniform(Step(s, e))
  {
    hide Enqueue, Turn, Stopped, AllStopped, Thinned, Kept, AllThinned, Uniform;
    var q := Step(s, e).queues;
    match e {
      case Queue(uid, reparted, prio, speaking) =>
        EnqueueUniform(s.(lastId := s.lastId + 1), Message(s.lastId + 1, uid, reparted), prio, speaking);
      case Reload(m, prio, speaking) => EnqueueUniform(s, m.(reparted := 0), prio, speaking);
      case SpeakTurn(held, outcome) => TurnUniform(s, held, outcome);
      case Pause(m) =>
      case TakePaused(held) =>
      case Stop(uid, speaking) => StopUniform(s, uid, speaking);
      case StopAll =>
        StoppedThins(s.queues.Get(s.current), 0);
        SetThins(s.queues, s.current, AllStopped(s.queues.Get(s.current)));
        AllThinnedUniform(q, s);
      case Cancel(uid, speaking) =>
        StopUniform(s, uid, speaking);
        CancelThins(StopStep(s, uid, speaking).queues, uid);
        AllThinnedUniform(q, StopStep(s, uid, speaking));
      case CancelAll =>
        NoneThins(s.queues);
        AllThinnedUniform(q, s);
    }
  }

  lemma StopUniform(s: State, uid: nat, speaking: bool)
    requires BlocksUniform(s)
    ensures BlocksUniform(StopStep(s, uid, speaking))
  {
    hide Stopped, Thinned, Uniform;
    StoppedThins(s.queues.Get(s.current), uid);
    SetThins(s.queues, s.current, Stopped(s.queues.Get(s.current), uid));
    if speaking {
      AllThinnedUniform(StopStep(s, uid, speaking).queues, s);
    }
  }

  lemma {:induction false} RunUniform(s: State, events: seq<Event>)
    requires BlocksUniform(s)
    ensures BlocksUniform(Run(s, events))
    decreases events
  {
    hide BlocksUniform, Step;
    if events == [] {
    } else {
      StepUniform(s, events[0]);
      RunUniform(Step(s, events[0]), events[1..]);
    }
  }

  /** In every run, resumed messages included, the queue of text messages holds at most
      one message or the messages of one block; so does the queue of notifications. */
  lemma BlockUniformity(events: seq<Event>)
    ensures Uniform(Run(Initial(), events).queues.p3) && Uniform(Run(Initial(), events).queues.p4)
  {
    hide Run;
    RunUniform(Initial(), events);
  }

  // ---- the most important message first

  /** A turn takes the oldest ready message of the most important priority that has one;
      it takes none only if the clients of all waiting messages are paused. */
  lemma {:induction false} PickIsMostImportant(q: Queues, held: set<Message>, n: nat)
    requires n <= 5
    ensures match Pick(q, held, n)
            case None => forall k, m | n <= k < 5 && m in q.Get(Level(k)) :: m in held
            case Some((prio, i)) =>
              q.Get(prio)[i] !in held && (forall j | 0 <= j < i :: q.Get(prio)[j] in held)
              && exists k | n <= k < 5 ::
                   Level(k) == prio && forall j, m | n <= j < k && m in q.Get(Level(j)) :: m in held
    decreases 5 - n
  {
    hide FirstReady;
    if n == 5 {
    } else {
      ReadyIsNotHeld(q.Get(Level(n)), held);
      if FirstReady(q.Get(Level(n)), held).None? {
        PickIsMostImportant(q, held, n + 1);
        var r := Pick(q, held, n + 1);
        if r.Some? {
          var k :| n + 1 <= k < 5 && Level(k) == r.value.0
                   && forall j, m | n + 1 <= j < k && m in q.Get(Level(j)) :: m in held;
          assert Level(k) == r.value.0 && forall j, m | n <= j < k && m in q.Get(Level(j)) :: m in held;
        }
      } else {
        assert Level(n) == Pick(q, held, n).value.0;
      }
    }
  }

  // ---- the rules of the priorities

  /** What is left of a queue of text or notifications when m has come: m at its end and,
      if m belongs to a block, the other messages of it. */
  ghost predicate OnlyBlockOf(m: Message, q: seq<Message>, r: seq<Message>)
  {
    r != [] && r[|r| - 1] == m && (m.reparted == 0 ==> |r| == 1)
    && (forall x :: x in r <==> x == m || (m.reparted != 0 && x in q && x.reparted == m.reparted))
    && Thinned(r, q + [m])
  }

  /** What the arrival of a message does to the five queues and to the progress block:
      important and ordinary messages stay; text gives way to an ordinary message and to
      newer text, unless it belongs to the same block; notifications and progress give way
      to these three.  The new message waits last in its queue, but a notification that
      finds another priority being spoken is canceled, with all others.  A progress message
      joins the progress block if that is of the same group, and starts a new one otherwise;
      while something is spoken it replaces the others. */
  lemma ArrivalRules(s: State, uid: nat, reparted: nat, prio: Priority, speaking: bool)
    ensures var m, q, t := Message(s.lastId + 1, uid, reparted), s.queues,
              Step(s, Queue(uid, reparted, prio, speaking));
            var r := t.queues;
            r.p1 == (if prio.Important? then q.p1 + [m] else q.p1)
            && r.p2 == (if prio.Ordinary? then q.p2 + [m] else q.p2)
            && (match prio
                case Ordinary => r.p3 == []
                case Text => OnlyBlockOf(m, q.p3, r.p3)
                case _ => r.p3 == q.p3)
            && (if prio.Notification?
                then if speaking && !s.current.Notification? then r.p4 == [] else OnlyBlockOf(m, q.p4, r.p4)
                else r.p4 == [])
            && (match prio
                case Notification => r.p5 == q.p5
                case Progress => r.p5 == if speaking then [m] else q.p5 + [m]
                case _ => r.p5 == [])
            && t.current == s.current && t.paused == s.paused && t.spoken == s.spoken && t.lastId == s.lastId + 1
    ensures var m, r := Message(s.lastId + 1, uid, reparted), Step(s, Queue(uid, reparted, prio, speaking)).block;
            if !prio.Progress? then r == s.block
            else if s.block != [] && s.block[|s.block| - 1].reparted == reparted then r == s.block + [m]
            else r == [m]
  {
    hide Kept, OnlyBlockOf, LatestBlock;
    var m := Message(s.lastId + 1, uid, reparted);
    LatestBlockOf(s.queues.p3, m);
    LatestBlockOf(s.queues.p4, m);
  }

  lemma LatestBlockOf(q: seq<Message>, m: Message)
    ensures OnlyBlockOf(m, q, LatestBlock(q + [m]))
  {
    hide Kept, Thinned;
    LatestThins(q + [m]);
    if m.reparted != 0 {
      KeptAppend(q, [m], InBlock(m.reparted));
      KeptMembers(q, InBlock(m.reparted));
      KeptOne(m, InBlock(m.reparted));
    }
  }

  /** Messages that a notification should give way to, even while they only wait. */
  predicate OthersWait(q: Queues)
  {
    q.p1 != [] || q.p2 != [] || q.p3 != [] || q.p5 != []
  }

  /** The promise that a notification is canceled when more important messages wait or are
      spoken is kept if and only if none waits or another priority is being spoken. */
  lemma NotificationGivesWayIff(s: State, uid: nat, reparted: nat, speaking: bool)
    requires AtMost(s.queues.p4, s.lastId)
    ensures var m, r := Message(s.lastId + 1, uid, reparted),
                        Step(s, Queue(uid, reparted, Notification, speaking)).queues;
            var other := speaking && !s.current.Notification?;
            (OthersWait(s.queues) || other ==> m !in r.p4) <==> (!OthersWait(s.queues) || other)
  {
    ArrivalRules(s, uid, reparted, Notification, speaking);
  }

  lemma NotificationBesideImportant()
    ensures Run(Initial(), [Queue(1, 0, Important, false), Queue(1, 0, Notification, false)]).queues ==
            Queues([Message(1, 1, 0)], [], [], [Message(2, 1, 0)], [])
  {}

  /** The promise that a new progress message is canceled while something is spoken is never
      kept: the older ones are. */
  lemma ProgressReplacesOlder(s: State, uid: nat, reparted: nat)
    ensures Step(s, Queue(uid, reparted, Progress, true)).queues.p5 == [Message(s.lastId + 1, uid, reparted)]
  {
    ArrivalRules(s, uid, reparted, Progress, true);
  }

  lemma KeptOne(m: Message, t: Test)
    requires Keeps(t, m)
    ensures Kept([m], t) == [m]
  {
    assert [m][1..] == [];
  }

  lemma {:induction false} KeptMembers(q: seq<Message>, t: Test)
    ensures forall x :: x in Kept(q, t) <==> x in q && Keeps(t, x)
  {
    if q == [] {
    } else {
      KeptMembers(q[1..], t);
      assert forall x :: x in q <==> x == q[0] || x in q[1..];
    }
  }

  /** The messages dropped from the end all belong to the block and the client, and the
      one before them does not. */
  lemma {:induction false} DropTailExact(q: seq<Message>, gid: nat, uid: nat)
    ensures var left := DropTail(q, gid, uid);
            left <= q
            && (forall i | |left| <= i < |q| :: q[i].reparted == gid && (uid == 0 || q[i].uid == uid))
            && (left != [] ==> !(left[|left| - 1].reparted == gid && (uid == 0 || left[|left| - 1].uid == uid)))
  {
    if q == [] || q[|q| - 1].reparted != gid || (uid != 0 && q[|q| - 1].uid != uid) {
    } else {
      DropTailExact(q[..|q| - 1], gid, uid);
    }
  }

  /** STOP all drops the block that ends the queue being spoken if and only if its number is
      1, and leaves any other queue as it is. */
  lemma StopAllDropsBlockIff(s: State)
    requires s.queues.Get(s.current) != []
    requires var q := s.queues.Get(s.current); q[|q| - 1].reparted != 0
    ensures var q, left := s.queues.Get(s.current), Step(s, StopAll).queues.Get(s.current);
            var gid := q[|q| - 1].reparted;
            (left == DropTail(q, gid, 0) <==> gid == 1) && (gid != 1 ==> left == q && DropTail(q, gid, 0) != q)
  {
    var q := s.queues.Get(s.current);
    DropTailExact(q, q[|q| - 1].reparted, 0);
  }

  /** For example, block 2 goes on to be spoken. */
  lemma StopAllLeavesBlock2()
    ensures var s := Run(Initial(), [Queue(1, 2, Important, false), Queue(1, 2, Important, false),
                                     SpeakTurn({}, Said), StopAll]);
            s.current == Important && s.queues.p1 == [Message(2, 1, 2)]
  {}

  /** CANCEL takes exactly the messages of the client out of every queue, whatever is being
      spoken. */
  lemma CancelIsExact(s: State, uid: nat, speaking: bool, prio: Priority, m: Message)
    requires uid != 0
    ensures m in Step(s, Event.Cancel(uid, speaking)).queues.Get(prio) <==> m in s.queues.Get(prio) && m.uid != uid
  {
    hide Kept, Stopped;
    var t := StopStep(s, uid, speaking);
    KeptMembers(t.queues.Get(prio), NotFrom(uid));
    StoppedExact(s.queues.Get(s.current), uid);
  }

  lemma StoppedExact(q: seq<Message>, uid: nat)
    requires uid != 0
    ensures Stopped(q, uid) <= q && forall i | |Stopped(q, uid)| <= i < |q| :: q[i].uid == uid
  {
    hide DropTail;
    if q != [] {
      DropTailExact(q, q[|q| - 1].reparted, uid);
    }
  }

  // ---- important messages are spoken in the order they came

  predicate NobodyPaused(events: seq<Event>)
  {
    forall i | 0 <= i < |events| :: events[i].SpeakTurn? ==> events[i].held == {}
  }

  /** The ids of the important messages that a run speaks. */
  function ImportantSaid(s: State, events: seq<Event>): seq<nat>
    decreases events
  {
    if events == [] then []
    else
      (if SaysImportant(s, events[0]) then [s.queues.p1[0].id] else [])
      + ImportantSaid(Step(s, events[0]), events[1..])
  }

  predicate SaysImportant(s: State, e: Event)
  {
    e.SpeakTurn? && e.outcome.Said? && !(s.block != [] && s.queues.p5 == []) && s.queues.p1 != []
    && Pick(s.queues, e.held, 0) == Some((Important, 0))
  }

  /** A step adds to the important messages only a new one, and takes the first one to
      speak it. */
  lemma ImportantStep(s: State, e: Event)
    requires !e.Reload? && (e.SpeakTurn? ==> e.held == {})
    ensures var t := Step(s, e);
            s.lastId <= t.lastId
            && (forall x | x in t.queues.p1 :: x in s.queues.p1 || s.lastId < x.id)
            && (SaysImportant(s, e) ==> t.queues.p1 == s.queues.p1[1..])
  {
    hide Step, Pick, SaysImportant;
    var t := Step(s, e);
    StepMembers(s, e, Important, Message(s.lastId, 0, 0));
    assert s.queues.Get(Important) == s.queues.p1 && t.queues.Get(Important) == t.queues.p1;
    forall x | x in t.queues.p1 ensures x in s.queues.p1 || s.lastId < x.id {
      if x.id <= s.lastId {
        StepMembers(s, e, Important, x);
      }
    }
    if SaysImportant(s, e) {
      SaidTakes(s, e);
    }
  }

  lemma SaidTakes(s: State, e: Event)
    requires SaysImportant(s, e)
    ensures Step(s, e).queues.p1 == s.queues.p1[1..]
  {
    hide Pick, Transfer;
  }

  /** Ascending, from above a bound. */
  ghost predicate Rising(ids: seq<nat>, bound: nat)
  {
    (forall i | 0 <= i < |ids| :: bound < ids[i]) && forall i, j | 0 <= i < j < |ids| :: ids[i] < ids[j]
  }

  lemma RisingCons(bound: nat, id: nat, rest: seq<nat>)
    requires bound < id && Rising(rest, id)
    ensures Rising([id] + rest, bound)
  {}

  lemma RisingNone(bound: nat)
    ensures Rising([], bound)
  {}

  /** In runs in which nobody pauses or resumes, important messages are spoken in the order
      they came, whatever else is spoken between them. */
  lemma {:induction false} ImportantInOrder(s: State, events: seq<Event>, bound: nat)
    requires Inv(s) && NoResume(events) && NobodyPaused(events)
    requires bound <= s.lastId && forall x | x in s.queues.p1 :: bound < x.id
    ensures Rising(ImportantSaid(s, events), bound)
    decreases events
  {
    hide Step, Inv, Rising, SaysImportant;
    if events == [] {
      RisingNone(bound);
    } else {
      var e, t := events[0], Step(s, events[0]);
      StepKeeps(s, e);
      ImportantStep(s, e);
      var rest := ImportantSaid(t, events[1..]);
      assert [] + rest == rest;
      if SaysImportant(s, e) {
        SaidFirst(s, e);
        FirstImportant(s);
        ImportantInOrder(t, events[1..], s.queues.p1[0].id);
        assert s.queues.p1[0] in s.queues.p1;
        RisingCons(bound, s.queues.p1[0].id, rest);
      } else {
        ImportantInOrder(t, events[1..], bound);
      }
    }
  }

  lemma SaidFirst(s: State, e: Event)
    requires SaysImportant(s, e)
    ensures s.queues.p1 != []
  {
    hide Pick;
  }

  lemma FirstImportant(s: State)
    requires Inv(s) && s.queues.p1 != []
    ensures s.queues.p1[0].id <= s.lastId && forall x | x in s.queues.p1[1..] :: s.queues.p1[0].id < x.id
  {
    hide BlockFresh, SpokenOnce;
    assert s.queues.p1[0] in s.queues.p1;
  }

  // ---- the last progress message

  /** The last message of the progress block. */
  ghost predicate Postponed(m: Message, s: State)
  {
    s.block != [] && s.block[|s.block| - 1] == m
  }

  /** The message that a turn takes from its queue. */
  function TakenBy(s: State, held: set<Message>): Option<Message>
  {
    if s.block != [] && s.queues.p5 == [] then None
    else match Pick(s.queues, held, 0)
         case None => None
         case Some((prio, i)) => Some(s.queues.Get(prio)[i])
  }

  /** A turn says some other message that belongs to the same block as m, or like m to
      no block. */
  ghost predicate SaysAnother(s: State, e: Event, m: Message)
  {
    e.SpeakTurn? && e.outcome.Said?
    && var t := TakenBy(s, e.held); t.Some? && t.value != m && t.value.reparted == m.reparted
  }

  /** A progress message of another block comes, or of a block when m has none. */
  predicate Replaces(e: Event, m: Message)
  {
    e.Queue? && e.prio.Progress? && e.reparted != m.reparted
  }

  /** The step forgets the progress block that holds m. */
  ghost predicate Forgets(s: State, e: Event, m: Message)
  {
    SaysAnother(s, e, m) || Replaces(e, m)
  }

  /** Of a step that reloads nothing: a message of the progress block stays in it, becomes
      an ordinary one or is spoken, unless the turn says another message of the same block
      number, 0 included, or a progress message of another number comes.  The last one is
      still the last when no progress message comes. */
  lemma BlockKeptIff(s: State, e: Event, m: Message)
    requires Inv(s) && m in s.block && !e.Reload?
    ensures var t := Step(s, e);
            (m in t.block || m in t.queues.p2 || m.id in t.spoken <==> !Forgets(s, e, m))
            && (m in t.block && Postponed(m, s) && !(e.Queue? && e.prio.Progress?) ==> Postponed(m, t))
  {
    hide Enqueue, Turn, Stopped, AllStopped, Kept, Inv;
    match e {
      case SpeakTurn(held, outcome) => BlockTurn(s, held, outcome, m);
      case Queue(uid, reparted, prio, speaking) => BlockQueue(s, e, m);
      case _ =>
    }
  }

  lemma BlockQueue(s: State, e: Event, m: Message)
    requires Inv(s) && m in s.block && e.Queue?
    ensures var t := Step(s, e);
            (m in t.block || m in t.queues.p2 || m.id in t.spoken <==> !Replaces(e, m))
            && (!e.prio.Progress? ==> t.block == s.block)
  {
    hide Resolve, InAgeOrder, QueuesFresh, SpokenOnce, Ascending;
    BlockFacts(s, m);
    QueueSettles(s, e.uid, e.reparted, e.prio, e.speaking);
    QueueMembers(s, e.uid, e.reparted, e.prio, e.speaking, m);
    assert Step(s, e).queues.Get(Ordinary) == Step(s, e).queues.p2 && s.queues.Get(Ordinary) == s.queues.p2;
  }

  /** A message of the block is not yet spoken and no ordinary one. */
  lemma BlockFacts(s: State, m: Message)
    requires Inv(s) && m in s.block
    ensures m !in s.queues.p2 && m.id !in s.spoken && m.id <= s.lastId
    ensures m.reparted == s.block[|s.block| - 1].reparted
  {
    hide InAgeOrder, QueuesFresh, SpokenOnce, Ascending;
    assert m.id == m.id;
  }

  lemma BlockTurn(s: State, held: set<Message>, outcome: Outcome, m: Message)
    requires Inv(s) && m in s.block
    ensures var t := Turn(s, held, outcome);
            (m in t.block || m in t.queues.p2 || m.id in t.spoken <==> !SaysAnother(s, SpeakTurn(held, outcome), m))
            && (t.block == s.block || t.block == [])
  {
    hide Pick, RemoveAt, Kept, InsertAll, InAgeOrder, QueuesFresh, SpokenOnce, Ascending;
    BlockFacts(s, m);
    if s.block != [] && s.queues.p5 == [] {
      TransferMoves(s);
    } else {
      var r := Pick(s.queues, held, 0);
      if r.Some? {
        NotInP2(s, r.value.0, r.value.1, m);
      }
    }
  }

  /** The postponed progress messages become ordinary ones, beside those that wait; text
      older than the last of them, notifications and progress are dropped. */
  lemma TransferMoves(s: State)
    requires Inv(s) && s.block != []
    ensures var t := Transfer(s);
            (forall x :: x in t.queues.p2 <==> x in s.queues.p2 || x in s.block)
            && (forall x :: x in t.queues.p3 <==> x in s.queues.p3 && s.block[|s.block| - 1].id <= x.id)
            && t.queues.p1 == s.queues.p1 && t.queues.p4 == [] && t.queues.p5 == [] && t.block == []
  {
    hide InsertAll, Kept, Ascending, QueuesFresh, SpokenOnce;
    InsertAllKeepsOrder(s.queues.p2, s.block);
    KeptMembers(s.queues.p3, NotOlderThan(s.block[|s.block| - 1].id));
  }

  /** A message of the block is not also an ordinary one, and has an id of its own. */
  lemma NotInP2(s: State, prio: Priority, i: nat, m: Message)
    requires Inv(s) && m in s.block && i < |s.queues.Get(prio)|
    ensures m !in s.queues.Set(prio, RemoveAt(s.queues.Get(prio), i)).p2
    ensures s.queues.Get(prio)[i].id == m.id ==> s.queues.Get(prio)[i] == m
    ensures m.id !in s.spoken
  {
    hide InAgeOrder, QueuesFresh, SpokenOnce, Ascending;
    assert s.queues.Get(prio)[i] in s.queues.Get(prio);
    var q := s.queues.p2;
    assert i < |q| ==> forall x | x in RemoveAt(q, i) :: x in q;
  }

  // ---- what becomes of a message that must not be forgotten

  /** The message was spoken, or is held for a paused client. */
  ghost predicate Settled(m: Message, s: State)
  {
    m in s.paused || m.id in s.spoken
  }

  /** The message was spoken or can still be. */
  ghost predicate Alive(m: Message, s: State)
  {
    Settled(m, s) || m in s.block || exists prio: Priority :: m in s.queues.Get(prio)
  }

  predicate Cancels(e: Event, m: Message)
  {
    e.CancelAll? || (e.Cancel? && e.uid == m.uid)
  }

  predicate Refuses(s: State, e: Event, m: Message)
  {
    e.SpeakTurn? && e.outcome.Failed? && TakenBy(s, e.held) == Some(m)
  }

  /** m and what is behind it belong to one block, and to one client unless uid is 0. */
  ghost predicate InTail(q: seq<Message>, m: Message, gid: nat, uid: nat)
  {
    exists i | 0 <= i < |q| ::
      q[i] == m && forall j | i <= j < |q| :: q[j].reparted == gid && (uid == 0 || q[j].uid == uid)
  }

  /** The step stops the block being spoken, and the message is of it. */
  ghost predicate StopsBlock(s: State, e: Event, m: Message)
  {
    var q := s.queues.Get(s.current);
    q != [] && q[|q| - 1].reparted != 0
    && ((e.Stop? && e.speaking && q[|q| - 1].uid == e.uid && InTail(q, m, q[|q| - 1].reparted, e.uid))
        || (e.StopAll? && InTail(q, m, 1, 0)))
  }

  /** A client cancels or stops the message, or the output module refuses it. */
  ghost predicate Withdraws(s: State, e: Event, m: Message)
  {
    Cancels(e, m) || Refuses(s, e, m) || StopsBlock(s, e, m)
  }

  /** A message comes that progress messages give way to. */
  predicate Overtakes(e: Event)
  {
    e.Queue?
    && (e.prio.Important? || e.prio.Ordinary? || e.prio.Text? || (e.prio.Progress? && e.speaking))
  }

  /** The step loses the message.  While the progress block holds it, it can only be
      forgotten: when another message of the same block number is said and it does not also
      wait in its queue, or when a progress message of another number comes and it does not
      wait there either or something is being spoken.  Otherwise it is lost when it is
      withdrawn or, waiting as a progress message, overtaken. */
  ghost predicate Loses(s: State, e: Event, m: Message)
  {
    Alive(m, s) && !Settled(m, s)
    && if m in s.block
       then (SaysAnother(s, e, m) && m !in s.queues.p5)
            || (Replaces(e, m) && (m !in s.queues.p5 || e.speaking))
       else Withdraws(s, e, m) || (m in s.queues.p5 && Overtakes(e))
  }

  ghost predicate LosesIn(s: State, events: seq<Event>, m: Message)
    decreases events
  {
    events != [] && (Loses(s, events[0], m) || LosesIn(Step(s, events[0]), events[1..], m))
  }

  /** The events that the following is about: nobody resumes, clients have ids, and only
      spoken messages are paused. */
  predicate Plain(s: State, e: Event)
  {
    !e.Reload? && !e.TakePaused? && (e.Stop? || e.Cancel? ==> e.uid != 0) && (e.Pause? ==> e.m.id in s.spoken)
  }

  predicate PlainRun(s: State, events: seq<Event>)
    decreases events
  {
    events == [] || (Plain(s, events[0]) && PlainRun(Step(s, events[0]), events[1..]))
  }

  /** m is an important, ordinary or progress message, or of the progress block. */
  ghost predicate Tracked(m: Message, s: State)
  {
    Inv(s) && m.id <= s.lastId && m !in s.queues.p3 && m !in s.queues.p4 && OnlyOne(m, s)
  }

  /** No other message has its id. */
  ghost predicate OnlyOne(m: Message, s: State)
  {
    Copies([m], s.block) && forall prio: Priority :: Copies([m], s.queues.Get(prio))
  }

  lemma DropTailMembers(q: seq<Message>, m: Message, gid: nat, uid: nat)
    requires Ascending(q)
    ensures m in DropTail(q, gid, uid) <==> m in q && !InTail(q, m, gid, uid)
  {
    hide DropTail;
    DropTailExact(q, gid, uid);
    var left := DropTail(q, gid, uid);
    if m in left {
      var k :| 0 <= k < |left| && left[k] == m;
      assert q[k] == m && q[|left| - 1] == left[|left| - 1];
    } else if m in q {
      var k :| 0 <= k < |q| && q[k] == m;
      assert |left| <= k;
    }
  }

  predicate Kind(prio: Priority) { prio.Important? || prio.Ordinary? || prio.Progress? }

  /** Still in its queue, or settled. */
  ghost predicate Stays(m: Message, prio: Priority, s: State)
  {
    m in s.queues.Get(prio) || Settled(m, s)
  }

  lemma QueueAscends(s: State, prio: Priority)
    requires Inv(s)
    ensures Ascending(s.queues.Get(prio))
  {
    hide Ascending, Before, QueuesFresh, BlockFresh, SpokenOnce;
  }

  lemma StopStays(s: State, e: Event, prio: Priority, m: Message)
    requires Inv(s) && m in s.queues.Get(prio) && !Settled(m, s)
    requires (e.Stop? && e.uid != 0) || e.StopAll?
    ensures Stays(m, prio, Step(s, e)) <==> !StopsBlock(s, e, m)
  {
    hide Inv, Enqueue, Turn, CancelStep, Stopped, AllStopped, InTail, Ascending, StopsBlock;
    var q := s.queues.Get(s.current);
    if e.Stop? {
      StoppedMembersIff(s, e.uid, m);
    } else {
      AllStoppedMembersIff(s, m);
    }
    if s.current != prio {
      assert m !in q by {
        QueuesApart(s, s.current, prio);
        assert m.id == m.id;
      }
      NotInTail(s, e, m);
    }
    StopsBlockDef(s, e, m);
  }

  lemma StopsBlockDef(s: State, e: Event, m: Message)
    ensures StopsBlock(s, e, m) <==>
            var q := s.queues.Get(s.current);
            q != [] && q[|q| - 1].reparted != 0
            && ((e.Stop? && e.speaking && q[|q| - 1].uid == e.uid && InTail(q, m, q[|q| - 1].reparted, e.uid))
                || (e.StopAll? && InTail(q, m, 1, 0)))
  {
    hide InTail;
  }

  lemma NotInTail(s: State, e: Event, m: Message)
    requires m !in s.queues.Get(s.current)
    ensures !StopsBlock(s, e, m)
  {}

  lemma StoppedMembersIff(s: State, uid: nat, m: Message)
    requires Inv(s)
    ensures var q := s.queues.Get(s.current);
            m in Stopped(q, uid) <==>
            m in q && !(q[|q| - 1].reparted != 0 && q[|q| - 1].uid == uid && InTail(q, m, q[|q| - 1].reparted, uid))
  {
    hide Inv, Ascending, InTail, DropTail;
    var q := s.queues.Get(s.current);
    QueueAscends(s, s.current);
    if q != [] {
      DropTailMembers(q, m, q[|q| - 1].reparted, uid);
    }
  }

  lemma AllStoppedMembersIff(s: State, m: Message)
    requires Inv(s)
    ensures var q := s.queues.Get(s.current);
            m in AllStopped(q) <==> m in q && !(q[|q| - 1].reparted != 0 && InTail(q, m, 1, 0))
  {
    hide Inv, Ascending, InTail, DropTail;
    QueueAscends(s, s.current);
    DropTailMembers(s.queues.Get(s.current), m, 1, 0);
  }

  lemma TurnStays(s: State, held: set<Message>, outcome: Outcome, prio: Priority, m: Message)
    requires Inv(s) && m in s.queues.Get(prio) && !Settled(m, s) && Kind(prio)
    ensures Stays(m, prio, Turn(s, held, outcome)) <==> !Refuses(s, SpeakTurn(held, outcome), m)
  {
    hide Pick, Kept, InsertAll, InAgeOrder, QueuesFresh, BlockFresh, SpokenOnce;
    if s.block != [] && s.queues.p5 == [] {
      TransferMoves(s);
    } else {
      var r := Pick(s.queues, held, 0);
      if r.Some? {
        TakenLeaves(s, r.value.0, r.value.1, prio, m);
      }
    }
  }

  /** Taking a message leaves all others. */
  lemma TakenLeaves(s: State, from: Priority, i: nat, prio: Priority, m: Message)
    requires Inv(s) && i < |s.queues.Get(from)| && m in s.queues.Get(prio)
    ensures m in s.queues.Set(from, RemoveAt(s.queues.Get(from), i)).Get(prio) <==> s.queues.Get(from)[i] != m
    ensures s.queues.Get(from)[i].id == m.id ==> s.queues.Get(from)[i] == m
  {
    hide BlockFresh, SpokenOnce, Ascending, Before, AtMost, Unspoken;
    var q := s.queues.Get(from);
    assert q[i] in q;
    if from == prio {
      TakenFrom(q, i, m);
    } else {
      QueuesApart(s, from, prio);
    }
  }

  lemma TakenFrom(q: seq<Message>, i: nat, m: Message)
    requires Ascending(q) && i < |q| && m in q
    ensures m in RemoveAt(q, i) <==> q[i] != m
    ensures q[i].id == m.id ==> q[i] == m
  {
    var k :| 0 <= k < |q| && q[k] == m;
    if k < i {
      assert RemoveAt(q, i)[k] == m;
    } else if k > i {
      assert RemoveAt(q, i)[k - 1] == m;
    }
    RemoveThins(q, i);
  }

  /** An important, ordinary or progress message that waits is lost in a step exactly if it
      is withdrawn or overtaken. */
  lemma WaitingStep(s: State, e: Event, prio: Priority, m: Message)
    requires Inv(s) && m in s.queues.Get(prio) && !Settled(m, s) && Kind(prio)
    requires Plain(s, e)
    ensures Stays(m, prio, Step(s, e)) <==> !Withdraws(s, e, m) && !(prio.Progress? && Overtakes(e))
  {
    hide Inv, Enqueue, Turn, StopStep, CancelStep, Stopped, AllStopped, Kept, InTail, Pick;
    match e {
      case Queue(uid, reparted, p, speaking) =>
        WaitingFacts(s, prio, m);
        QueueStays(s, uid, reparted, p, speaking, prio, m);
      case SpeakTurn(held, outcome) => TurnStays(s, held, outcome, prio, m);
      case Stop(_, _) => StopStays(s, e, prio, m);
      case StopAll => StopStays(s, e, prio, m);
      case Cancel(uid, speaking) =>
        CancelIsExact(s, uid, speaking, prio, m);
        CancelSettles(s, uid, speaking);
      case CancelAll =>
      case Pause(_) =>
      case _ =>
    }
  }

  lemma CancelSettles(s: State, uid: nat, speaking: bool)
    ensures var t := Step(s, Event.Cancel(uid, speaking));
            t.paused == s.paused && t.spoken == s.spoken && t.block == s.block && t.lastId == s.lastId
  {
    hide Kept, Stopped;
  }

  lemma QueueStays(s: State, uid: nat, reparted: nat, p: Priority, speaking: bool, prio: Priority, m: Message)
    requires m in s.queues.Get(prio) && !Settled(m, s) && Kind(prio) && m.id <= s.lastId
    ensures var e := Queue(uid, reparted, p, speaking);
            Stays(m, prio, Step(s, e)) <==> !(prio.Progress? && Overtakes(e))
  {
    hide LatestBlock, BlockWith;
  }

  /** Where messages come from: a queue keeps its own, and takes in the newest or, if it is
      the ordinary one, those of the progress block. */
  lemma StepMembers(s: State, e: Event, p: Priority, x: Message)
    requires !e.Reload? && x.id <= s.lastId
    ensures var t := Step(s, e);
            s.lastId <= t.lastId && (x in t.block ==> x in s.block)
            && (x in t.queues.Get(p) ==> x in s.queues.Get(p) || (p.Ordinary? && x in s.block))
  {
    hide Enqueue, Turn, Stopped, AllStopped, Thinned, Kept, AllThinned;
    match e {
      case Queue(uid, reparted, prio, speaking) => QueueMembers(s, uid, reparted, prio, speaking, x);
      case SpeakTurn(held, outcome) => TurnMembers(s, held, outcome, p, x);
      case Stop(uid, speaking) => StoppedMembers(s.queues.Get(s.current), uid);
      case StopAll => StoppedMembers(s.queues.Get(s.current), 0);
      case Cancel(uid, speaking) =>
        CancelSettles(s, uid, speaking);
        StoppedMembers(s.queues.Get(s.current), uid);
        KeptMembers(StopStep(s, uid, speaking).queues.Get(p), NotFrom(uid));
      case _ =>
    }
  }

  lemma StoppedMembers(q: seq<Message>, uid: nat)
    ensures forall x | x in Stopped(q, uid) || x in AllStopped(q) :: x in q
  {
    hide DropTail, Stopped, AllStopped;
    StoppedThins(q, uid);
  }

  lemma QueueMembers(s: State, uid: nat, reparted: nat, prio: Priority, speaking: bool, x: Message)
    requires x.id <= s.lastId
    ensures var t := Step(s, Queue(uid, reparted, prio, speaking));
            s.lastId <= t.lastId && (x in t.block ==> x in s.block)
            && forall p: Priority | x in t.queues.Get(p) :: x in s.queues.Get(p)
  {
    hide Resolve;
    ResolveMembers(s.queues, Message(s.lastId + 1, uid, reparted), prio, speaking, s.current);
  }

  lemma {:induction false} InsertAllMembers(q: seq<Message>, block: seq<Message>)
    ensures forall x :: x in InsertAll(q, block) <==> x in q || x in block
    decreases block
  {
    hide InsertSorted;
    if block == [] {
    } else {
      InsertMembers(q, block[0]);
      InsertAllMembers(InsertSorted(q, block[0]), block[1..]);
      assert forall x :: x in block <==> x == block[0] || x in block[1..];
    }
  }

  lemma {:induction false} InsertMembers(q: seq<Message>, m: Message)
    ensures forall x :: x in InsertSorted(q, m) <==> x in q || x == m
  {
    if q == [] {
    } else {
      InsertMembers(q[1..], m);
      assert forall x :: x in q <==> x == q[0] || x in q[1..];
    }
  }

  lemma TurnMembers(s: State, held: set<Message>, outcome: Outcome, p: Priority, x: Message)
    ensures var t := Turn(s, held, outcome);
            s.lastId == t.lastId && (x in t.block ==> x in s.block)
            && (x in t.queues.Get(p) ==> x in s.queues.Get(p) || (p.Ordinary? && x in s.block))
  {
    hide Pick, Kept, InsertAll, Deliver, RemoveAt;
    if s.block != [] && s.queues.p5 == [] {
      InsertAllMembers(s.queues.p2, s.block);
      KeptMembers(s.queues.p3, NotOlderThan(s.block[|s.block| - 1].id));
    } else {
      var r := Pick(s.queues, held, 0);
      if r.Some? {
        var q := s.queues.Get(r.value.0);
        DeliverMembers(s.(queues := s.queues.Set(r.value.0, RemoveAt(q, r.value.1)), current := r.value.0),
                       q[r.value.1], outcome);
        RemovedMembers(q, r.value.1);
      }
    }
  }

  lemma RemovedMembers(q: seq<Message>, i: nat)
    requires i < |q|
    ensures forall x | x in RemoveAt(q, i) :: x in q
  {}

  lemma DeliverMembers(s: State, m: Message, outcome: Outcome)
    ensures var t := Deliver(s, m, outcome);
            t.queues == s.queues && t.lastId == s.lastId && (t.block == s.block || t.block == [])
  {}

  lemma QueueSettles(s: State, uid: nat, reparted: nat, prio: Priority, speaking: bool)
    ensures var t := Step(s, Queue(uid, reparted, prio, speaking)); t.paused == s.paused && t.spoken == s.spoken
  {
    hide Resolve;
  }

  /** What settles a message, and that it stays so. */
  lemma SettledStep(s: State, e: Event, m: Message)
    requires Plain(s, e) && OnlyOne(m, s)
    ensures Settled(m, s) ==> Settled(m, Step(s, e))
    ensures Settled(m, Step(s, e)) ==> Settled(m, s) || exists prio: Priority :: m in s.queues.Get(prio)
  {
    hide Enqueue, Stopped, AllStopped, Kept, Pick, Transfer, RemoveAt;
    match e {
      case Queue(uid, reparted, prio, speaking) => QueueSettles(s, uid, reparted, prio, speaking);
      case SpeakTurn(held, outcome) => TurnSettles(s, held, outcome, m);
      case _ =>
    }
  }

  lemma TurnSettles(s: State, held: set<Message>, outcome: Outcome, m: Message)
    requires OnlyOne(m, s)
    ensures var t := Turn(s, held, outcome);
            (Settled(m, s) ==> Settled(m, t))
            && (Settled(m, t) ==> Settled(m, s) || exists prio: Priority :: m in s.queues.Get(prio))
  {
    hide Pick, Kept, InsertAll, RemoveAt;
    if !(s.block != [] && s.queues.p5 == []) {
      var r := Pick(s.queues, held, 0);
      if r.Some? {
        assert s.queues.Get(r.value.0)[r.value.1] in s.queues.Get(r.value.0);
        assert m in [m];
      }
    }
  }

  lemma TrackedKeeps(s: State, e: Event, m: Message)
    requires Tracked(m, s) && Plain(s, e)
    ensures Tracked(m, Step(s, e))
  {
    hide Inv, Step, Copies, OnlyOne;
    StepKeeps(s, e);
    OnlyOneKeeps(s, e, m);
    StepMembers(s, e, Important, m);
    StepMembers(s, e, Text, m);
    StepMembers(s, e, Notification, m);
    StepMembers(s, e, Progress, m);
  }

  lemma OnlyOneKeeps(s: State, e: Event, m: Message)
    requires Tracked(m, s) && Plain(s, e)
    ensures OnlyOne(m, Step(s, e))
  {
    hide Inv, Step, Postponed;
    var t := Step(s, e);
    forall prio: Priority ensures Copies([m], t.queues.Get(prio)) {
      forall x | x in t.queues.Get(prio) && x.id == m.id ensures x == m {
        StepMembers(s, e, prio, x);
      }
    }
    forall x | x in t.block && x.id == m.id ensures x == m {
      StepMembers(s, e, Important, x);
    }
  }

  /** One step: a message that is still alive is lost exactly as Loses says. */
  lemma AliveStep(s: State, e: Event, m: Message)
    requires Tracked(m, s) && Plain(s, e)
    ensures Alive(m, Step(s, e)) <==> Alive(m, s) && !Loses(s, e, m)
  {
    hide Inv, Step, OnlyOne, Settled, Withdraws, Overtakes, SaysAnother, Replaces;
    SettledStep(s, e, m);
    StepMembers(s, e, Important, m);
    forall prio: Priority ensures m in Step(s, e).queues.Get(prio) ==> m in s.queues.Get(prio) || m in s.block {
      StepMembers(s, e, prio, m);
    }
    if Settled(m, s) || !Alive(m, s) {
    } else if m in s.block {
      BlockStep(s, e, m);
    } else {
      var prio: Priority :| m in s.queues.Get(prio);
      QueueStep(s, e, prio, m);
    }
  }

  lemma BlockStep(s: State, e: Event, m: Message)
    requires Tracked(m, s) && Plain(s, e) && m in s.block && !Settled(m, s)
    ensures Alive(m, Step(s, e)) <==>
            !Forgets(s, e, m) || (m in s.queues.p5 && !(Replaces(e, m) && e.speaking))
  {
    hide Inv, Step, OnlyOne, TakenBy;
    BlockKeptIff(s, e, m);
    var t := Step(s, e);
    assert t.queues.Get(Ordinary) == t.queues.p2 && t.queues.Get(Progress) == t.queues.p5;
    if SaysAnother(s, e, m) {
      Forgotten(s, e, m);
    } else if Replaces(e, m) {
      Replaced(s, e, m);
    }
  }

  /** When the block is forgotten, m is left where it waits as a progress message, if it
      does. */
  lemma Forgotten(s: State, e: Event, m: Message)
    requires Inv(s) && m in s.block && SaysAnother(s, e, m) && !Settled(m, s)
    ensures Alive(m, Step(s, e)) <==> m in s.queues.p5
  {
    hide Pick, RemoveAt, Inv;
    BlockFacts(s, m);
    var r := Pick(s.queues, e.held, 0);
    var q := s.queues.Get(r.value.0);
    var t := Step(s, e);
    BlockApart(s, m);
    NotInP2(s, r.value.0, r.value.1, m);
    forall prio: Priority ensures m in t.queues.Get(prio) <==> m in s.queues.Get(prio) {
      RemovedMembers(q, r.value.1);
      if m in s.queues.Get(prio) {
        TakenLeaves(s, r.value.0, r.value.1, prio, m);
      }
    }
    assert s.queues.Get(Progress) == s.queues.p5;
  }

  /** When a new block begins, m is left there too, unless something is being spoken. */
  lemma Replaced(s: State, e: Event, m: Message)
    requires Inv(s) && m in s.block && Replaces(e, m) && !Settled(m, s)
    ensures Alive(m, Step(s, e)) <==> m in s.queues.p5 && !e.speaking
  {
    hide Inv, Step;
    BlockQueue(s, e, m);
    BlockFacts(s, m);
    BlockApart(s, m);
    QueueSettles(s, e.uid, e.reparted, e.prio, e.speaking);
    QueueMembers(s, e.uid, e.reparted, e.prio, e.speaking, m);
    assert s.queues.Get(Progress) == s.queues.p5;
    if m in s.queues.p5 {
      QueueStays(s, e.uid, e.reparted, e.prio, e.speaking, Progress, m);
    }
  }

  lemma BlockApart(s: State, m: Message)
    requires Inv(s) && m in s.block
    ensures forall prio: Priority | m in s.queues.Get(prio) :: prio.Progress?
  {
    hide InAgeOrder, QueuesFresh, SpokenOnce, Ascending;
  }

  lemma QueueStep(s: State, e: Event, prio: Priority, m: Message)
    requires Tracked(m, s) && Plain(s, e) && m !in s.block && !Settled(m, s) && m in s.queues.Get(prio)
    ensures Alive(m, Step(s, e)) <==> !Withdraws(s, e, m) && !(m in s.queues.p5 && Overtakes(e))
  {
    hide Inv, Step, OnlyOne, Settled, Withdraws, Overtakes;
    assert s.queues.Get(Progress) == s.queues.p5 && s.queues.Get(Text) == s.queues.p3
           && s.queues.Get(Notification) == s.queues.p4;
    WaitingStep(s, e, prio, m);
    forall p: Priority | p != prio ensures m !in s.queues.Get(p) { QueuesApart(s, p, prio); assert m.id == m.id; }
    forall p: Priority { StepMembers(s, e, p, m); }
  }

  lemma {:induction false} LostIff(s: State, events: seq<Event>, m: Message)
    requires Tracked(m, s) && PlainRun(s, events)
    ensures Alive(m, Run(s, events)) <==> Alive(m, s) && !LosesIn(s, events, m)
    decreases events
  {
    hide Step, Tracked, Plain, Loses;
    if events == [] {
    } else {
      TrackedKeeps(s, events[0], m);
      AliveStep(s, events[0], m);
      LostIff(Step(s, events[0]), events[1..], m);
    }
  }

  // ---- over whole runs

  /** Some step forgets the block while it holds m. */
  ghost predicate ForgetsIn(s: State, events: seq<Event>, m: Message)
    decreases events
  {
    events != [] && ((m in s.block && Forgets(s, events[0], m)) || ForgetsIn(Step(s, events[0]), events[1..], m))
  }

  /** Some step withdraws m while it only waits in its queue. */
  ghost predicate WithdrawnIn(s: State, events: seq<Event>, m: Message)
    decreases events
  {
    events != []
    && ((Alive(m, s) && !Settled(m, s) && m !in s.block && Withdraws(s, events[0], m))
        || WithdrawnIn(Step(s, events[0]), events[1..], m))
  }

  /** As a progress message, m waits only while the block also holds it. */
  ghost predicate Backed(m: Message, s: State)
  {
    m in s.queues.p5 ==> m in s.block || Settled(m, s)
  }

  lemma BackedStep(s: State, e: Event, m: Message)
    requires Tracked(m, s) && Plain(s, e) && Backed(m, s) && !(m in s.block && Forgets(s, e, m))
    ensures Backed(m, Step(s, e))
  {
    hide Inv, Step, OnlyOne, Settled, Forgets;
    SettledStep(s, e, m);
    StepMembers(s, e, Progress, m);
    assert Step(s, e).queues.Get(Progress) == Step(s, e).queues.p5 && s.queues.Get(Progress) == s.queues.p5;
    if m in s.block {
      BlockKeptIff(s, e, m);
      TrackedKeeps(s, e, m);
      SpokenSettles(m, Step(s, e));
    }
  }

  lemma SpokenSettles(m: Message, s: State)
    requires Tracked(m, s)
    ensures m.id in s.spoken ==> Settled(m, s)
    ensures m in s.queues.p2 ==> m !in s.queues.p5
  {
    hide Ascending, OnlyOne;
  }

  lemma {:induction false} NotForgotten(s: State, events: seq<Event>, m: Message)
    requires Tracked(m, s) && PlainRun(s, events) && Backed(m, s) && !ForgetsIn(s, events, m)
    ensures LosesIn(s, events, m) <==> WithdrawnIn(s, events, m)
    decreases events
  {
    hide Step, Tracked, Plain, Alive, Settled, Withdraws, SaysAnother, Replaces;
    if events == [] {
    } else {
      TrackedKeeps(s, events[0], m);
      BackedStep(s, events[0], m);
      NotForgotten(Step(s, events[0]), events[1..], m);
    }
  }

  lemma {:induction false} OutsideTheBlock(s: State, events: seq<Event>, m: Message)
    requires Tracked(m, s) && PlainRun(s, events) && m !in s.block
    ensures !ForgetsIn(s, events, m)
    decreases events
  {
    hide Step;
    if events == [] {
    } else {
      TrackedKeeps(s, events[0], m);
      StepMembers(s, events[0], Important, m);
      OutsideTheBlock(Step(s, events[0]), events[1..], m);
    }
  }

  lemma BlockTracked(s: State, m: Message)
    requires Inv(s) && m in s.block
    ensures Tracked(m, s) && Backed(m, s) && Alive(m, s)
  {
    hide Inv;
    BlockOnlyOne(s, m);
    BlockApart(s, m);
    assert s.queues.Get(Text) == s.queues.p3 && s.queues.Get(Notification) == s.queues.p4;
  }

  lemma BlockOnlyOne(s: State, m: Message)
    requires Inv(s) && m in s.block
    ensures OnlyOne(m, s) && m.id <= s.lastId
  {
    hide InAgeOrder, QueuesFresh, SpokenOnce, OneGroup;
    AscendingOnlyOne(s.block, m);
  }

  lemma AscendingOnlyOne(q: seq<Message>, m: Message)
    requires Ascending(q) && m in q
    ensures Copies([m], q)
  {}

  lemma WaitingTracked(s: State, prio: Priority, m: Message)
    requires Inv(s) && m in s.queues.Get(prio) && (prio.Important? || prio.Ordinary?)
    ensures Tracked(m, s) && Backed(m, s) && Alive(m, s) && m !in s.block
  {
    hide Inv, Ascending;
    WaitingFacts(s, prio, m);
    forall p: Priority ensures Copies([m], s.queues.Get(p)) && (p != prio ==> m !in s.queues.Get(p)) {
      WaitingOnlyOne(s, prio, p, m);
    }
    assert s.queues.Get(Progress) == s.queues.p5 && s.queues.Get(Text) == s.queues.p3
           && s.queues.Get(Notification) == s.queues.p4;
    NotInBlock(s, prio, m);
  }

  lemma WaitingOnlyOne(s: State, prio: Priority, p: Priority, m: Message)
    requires Inv(s) && m in s.queues.Get(prio)
    ensures Copies([m], s.queues.Get(p)) && (p != prio ==> m !in s.queues.Get(p))
  {
    hide QueuesFresh, BlockFresh, SpokenOnce;
    if p == prio {
      AscendingOnlyOne(s.queues.Get(p), m);
    } else {
      QueuesApart(s, prio, p);
    }
  }

  lemma NotInBlock(s: State, prio: Priority, m: Message)
    requires Inv(s) && m in s.queues.Get(prio) && (prio.Important? || prio.Ordinary?)
    ensures m !in s.block && Copies([m], s.block)
  {
    hide InAgeOrder, QueuesFresh, SpokenOnce, Ascending;
  }

  /** The server promises to speak the last message of a progress series.  After any run
      in which m has come into the progress block, and over whatever follows without a
      resumption, m stays alive if and only if no step loses it: says another message of
      its block number while m no longer waits in its own queue, or brings progress of
      another number then or during speech; or, with the block once forgotten so, drops
      that queue; or withdraws m. */
  lemma LastProgressLostIff(before: seq<Event>, events: seq<Event>, m: Message)
    requires NoResume(before) && m in Run(Initial(), before).block && PlainRun(Run(Initial(), before), events)
    ensures var s := Run(Initial(), before);
            (Alive(m, Run(s, events)) <==> !LosesIn(s, events, m))
            && (!ForgetsIn(s, events, m) ==> (Alive(m, Run(s, events)) <==> !WithdrawnIn(s, events, m)))
  {
    hide Run, Inv, Initial, Tracked, Backed, Alive;
    InitialInv();
    RunKeeps(Initial(), before);
    var s := Run(Initial(), before);
    BlockTracked(s, m);
    LostIff(s, events, m);
    if !ForgetsIn(s, events, m) {
      NotForgotten(s, events, m);
    }
  }

  /** Over every run without a resumption, a waiting important or ordinary message stays
      alive if and only if no step withdraws it. */
  lemma WaitingLostIff(before: seq<Event>, events: seq<Event>, prio: Priority, m: Message)
    requires NoResume(before) && m in Run(Initial(), before).queues.Get(prio) && (prio.Important? || prio.Ordinary?)
    requires PlainRun(Run(Initial(), before), events)
    ensures var s := Run(Initial(), before);
            Alive(m, Run(s, events)) <==> !WithdrawnIn(s, events, m)
  {
    hide Run, Inv, Initial, Tracked, Backed, Alive;
    InitialInv();
    RunKeeps(Initial(), before);
    var s := Run(Initial(), before);
    WaitingTracked(s, prio, m);
    LostIff(s, events, m);
    OutsideTheBlock(s, events, m);
    NotForgotten(s, events, m);
  }

  /** The documented promise fails: the last of two progress messages is forgotten when
      the first one is spoken, and a text message then removes it from its queue. */
  lemma LastProgressLost()
    ensures var before, after := [Queue(1, 0, Progress, false), Queue(1, 0, Progress, false)],
                                 [SpeakTurn({}, Said), Queue(1, 0, Text, false)];
            var m, s := Message(2, 1, 0), Run(Initial(), before);
            Postponed(m, s) && !Alive(m, Run(s, after)) && Run(s, after).spoken == [1]
  {
    hide Step;
    var queue, text := Queue(1, 0, Progress, false), Queue(1, 0, Text, false);
    var said := SpeakTurn({}, Said);
    var first, m := Message(1, 1, 0), Message(2, 1, 0);
    var s := ProgressQueued(Initial());
    s := ProgressQueued(s);
    assert [queue, queue][1..] == [queue] && [queue][1..] == [];
    assert Run(s, []) == s && Run(Step(Initial(), queue), [queue]) == s && Run(Initial(), [queue, queue]) == s;
    var t := FirstSaid(s);
    var u := TextQueued(t);
    assert [said, text][1..] == [text] && [text][1..] == [];
    assert Run(u, []) == u && Run(t, [text]) == u && Run(s, [said, text]) == u;
  }

  /** It also fails between clients: the progress message of one series, brought while
      something is spoken, takes that of another with it. */
  lemma OtherSeriesLost()
    ensures var before, after := [Queue(1, 1, Progress, false)], [Queue(2, 2, Progress, true)];
            var m, s := Message(1, 1, 1), Run(Initial(), before);
            Postponed(m, s) && !Alive(m, Run(s, after)) && Run(s, after).spoken == []
  {
    hide Turn, StopStep, CancelStep, AllStopped;
    var first, second := Queue(1, 1, Progress, false), Queue(2, 2, Progress, true);
    var s := Step(Initial(), first);
    var t := Step(s, second);
    assert [first][1..] == [] && [second][1..] == [];
    assert Run(s, []) == s && Run(Initial(), [first]) == s;
    assert Run(t, []) == t && Run(s, [second]) == t;
    assert t.queues == Queues([], [], [], [], [Message(2, 2, 2)]) && t.block == [Message(2, 2, 2)];
  }

  /** A client's progress message outside blocks, when nothing is spoken. */
  lemma ProgressQueued(s: State) returns (t: State)
    requires s.block == [] || s.block[|s.block| - 1].reparted == 0
    ensures t == Step(s, Queue(1, 0, Progress, false))
    ensures t == State(Queues(s.queues.p1, s.queues.p2, s.queues.p3, [], s.queues.p5 + [Message(s.lastId + 1, 1, 0)]),
                       s.block + [Message(s.lastId + 1, 1, 0)], s.paused, s.current, s.lastId + 1, s.spoken)
  {
    hide Turn, StopStep, CancelStep, AllStopped, LatestBlock, Latest;
    t := Step(s, Queue(1, 0, Progress, false));
  }

  /** The first of two progress messages is spoken. */
  lemma FirstSaid(s: State) returns (t: State)
    requires s.queues.p1 == s.queues.p2 == s.queues.p3 == s.queues.p4 == [] && |s.queues.p5| == 2
    requires s.block != [] && s.block[|s.block| - 1].reparted == s.queues.p5[0].reparted
    ensures t == Step(s, SpeakTurn({}, Said))
    ensures t == State(Queues([], [], [], [], [s.queues.p5[1]]), [], s.paused, Progress, s.lastId,
                       s.spoken + [s.queues.p5[0].id])
  {
    hide Enqueue, StopStep, CancelStep, AllStopped, Transfer, Pick;
    OnlyProgress(s.queues);
    assert RemoveAt(s.queues.p5, 0) == [s.queues.p5[1]];
    t := Step(s, SpeakTurn({}, Said));
  }

  lemma OnlyProgress(q: Queues)
    requires q.p1 == q.p2 == q.p3 == q.p4 == [] && q.p5 != []
    ensures Pick(q, {}, 0) == Some((Progress, 0))
  {
    assert Pick(q, {}, 4) == Some((Progress, 0));
    assert Pick(q, {}, 3) == Pick(q, {}, 4);
    assert Pick(q, {}, 2) == Pick(q, {}, 3);
    assert Pick(q, {}, 1) == Pick(q, {}, 2);
  }

  /** A text message drops the progress messages. */
  lemma TextQueued(s: State) returns (t: State)
    requires s.block == s.paused == []
    ensures t == Step(s, Queue(1, 0, Text, false)) && t.spoken == s.spoken
    ensures forall m: Message | m in s.queues.p5 && m.id <= s.lastId && m.id !in s.spoken ::
              OnlyIn(m, s) ==> !Alive(m, t)
  {
    hide Turn, StopStep, CancelStep, AllStopped, LatestBlock, Latest, Kept;
    t := Step(s, Queue(1, 0, Text, false));
    forall m: Message, prio: Priority | m.id <= s.lastId && OnlyIn(m, s) ensures m !in t.queues.Get(prio) {
      StepMembers(s, Queue(1, 0, Text, false), prio, m);
      assert t.queues.Get(Progress) == [];
    }
  }

  /** The message waits as a progress message only. */
  ghost predicate OnlyIn(m: Message, s: State)
  {
    forall prio: Priority | m in s.queues.Get(prio) :: prio.Progress?
  }

  // ---- the server plays a run

  predicate FromClients(events: seq<Event>)
  {
    forall i | 0 <= i < |events| ::
      (events[i].Stop? ==> events[i].uid != 0) && (events[i].Cancel? ==> events[i].uid != 0)
  }

  /** The server's methods, called in any order, go through the states of the run. */
  method Play(events: seq<Event>) returns (server: Server)
    requires FromClients(events)
    ensures fresh(server) && server.View() == Run(Initial(), events)
    ensures NoResume(events) ==> forall i, j | 0 <= i < j < |server.spoken| :: server.spoken[i] != server.spoken[j]
  {
    hide Step, Run, Initial;
    server := new Server();
    var n := 0;
    assert events[0..] == events;
    while n < |events|
      invariant n <= |events| && fresh(server)
      invariant Run(server.View(), events[n..]) == Run(Initial(), events)
    {
      RunStep(server.View(), events, n);
      Dispatch(server, events[n]);
      n := n + 1;
    }
    RunEnd(server.View(), events);
    if NoResume(events) {
      AtMostOnce(events);
    }
  }

  lemma RunStep(s: State, events: seq<Event>, n: nat)
    requires n < |events|
    ensures Run(s, events[n..]) == Run(Step(s, events[n]), events[n + 1..])
  {
    assert events[n..][1..] == events[n + 1..];
  }

  lemma RunEnd(s: State, events: seq<Event>)
    ensures Run(s, events[|events|..]) == s
  {}

  method Dispatch(server: Server, e: Event)
    requires e.Stop? ==> e.uid != 0
    requires e.Cancel? ==> e.uid != 0
    modifies server
    ensures server.View() == Step(old(server.View()), e)
  {
    hide Step;
    match e {
      case Queue(uid, reparted, prio, speaking) => var _ := server.QueueMessage(uid, reparted, prio, speaking);
      case SpeakTurn(held, outcome) => server.SpeakOnce(held, outcome);
      case Pause(m) => server.PauseCurrent(m);
      case TakePaused(held) => var _ := server.NextResumed(held);
      case Reload(m, prio, speaking) => server.ReloadMessage(m, prio, speaking);
      case Stop(uid, speaking) => server.SpeakingStop(uid, speaking);
      case StopAll => server.SpeakingStopAll();
      case Cancel(uid, speaking) => server.SpeakingCancel(uid, speaking);
      case CancelAll => server.SpeakingCancelAll();
    }
  }
}
