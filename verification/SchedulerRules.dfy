/** Rules of the scheduler that single steps keep: which priority is taken and becomes the
    current one, and what happens to a message that is queued again. */
module SchedulerRules {
  import opened CStrings
  import opened Scheduler
  import opened SchedulerProperties

  /** The priorities by their number in SSIP, the most important first. */
  function Rank(prio: Priority): nat
  {
    match prio
    case Important => 1
    case Ordinary => 2
    case Text => 3
    case Notification => 4
    case Progress => 5
  }

  lemma LevelRanks(n: nat)
    requires n < 5
    ensures Rank(Level(n)) == n + 1
  {}

  /** The message taken is the oldest ready one of the priority with the lowest number that
      has one; none is taken only if the clients of all that wait are paused. */
  lemma TakenIsMostImportant(q: Queues, held: set<Message>)
    ensures match Pick(q, held, 0)
            case None => forall prio: Priority, m | m in q.Get(prio) :: m in held
            case Some((prio, i)) =>
              q.Get(prio)[i] !in held && (forall j | 0 <= j < i :: q.Get(prio)[j] in held)
              && forall p: Priority, m | Rank(p) < Rank(prio) && m in q.Get(p) :: m in held
  {
    hide Pick;
    PickIsMostImportant(q, held, 0);
    var r := Pick(q, held, 0);
    if r.None? {
      forall prio: Priority, m | m in q.Get(prio) ensures m in held {
        assert Level(Rank(prio) - 1) == prio;
      }
    } else {
      var prio := r.value.0;
      var k :| 0 <= k < 5 && Level(k) == prio && forall j, m | 0 <= j < k && m in q.Get(Level(j)) :: m in held;
      LevelRanks(k);
      forall p: Priority, m | Rank(p) < Rank(prio) && m in q.Get(p) ensures m in held {
        assert Level(Rank(p) - 1) == p;
      }
    }
  }

  /** A turn makes the priority current from which it takes a message; moving the progress
      block makes it that of ordinary messages; otherwise it stays, as it does in every
      other step. */
  lemma CurrentIs(s: State, e: Event)
    ensures Step(s, e).current ==
            if !e.SpeakTurn? then s.current
            else if s.block != [] && s.queues.p5 == [] then Ordinary
            else match Pick(s.queues, e.held, 0)
                 case None => s.current
                 case Some((prio, _)) => prio
  {
    hide Resolve, BlockWith, Pick, InsertAll, Kept, Stopped, AllStopped, RemoveAt, FirstReady;
  }

  /** A turn takes just that message off its queue; it is recorded if it was said, put on the
      paused list if its client was paused, and gone if the module refused it. */
  lemma TurnTakes(s: State, held: set<Message>, outcome: Outcome)
    requires s.block == [] || s.queues.p5 != []
    ensures var t, r := Step(s, SpeakTurn(held, outcome)), Pick(s.queues, held, 0);
            if r.None? then t == s
            else
              var q := s.queues.Get(r.value.0);
              var m := q[r.value.1];
              t.queues == s.queues.Set(r.value.0, q[..r.value.1] + q[r.value.1 + 1..])
              && t.spoken == (if outcome == Said then s.spoken + [m.id] else s.spoken)
              && t.paused == (if outcome == Held then s.paused + [m] else s.paused)
              && t.block == (if outcome == Said && s.block != [] && s.block[|s.block| - 1].reparted == m.reparted
                             then [] else s.block)
              && t.lastId == s.lastId
  {
    hide Pick;
  }

  /** A resumed message that is queued again keeps its id and its client and belongs to no
      block; it waits last in its queue, as a new one would, unless it is a notification
      that finds another priority being spoken. */
  lemma ReloadRules(s: State, m: Message, prio: Priority, speaking: bool)
    ensures var t, again := Step(s, Reload(m, prio, speaking)), Message(m.id, m.uid, 0);
            var r := t.queues.Get(prio);
            (if prio.Notification? && speaking && !s.current.Notification? then r == []
             else r != [] && r[|r| - 1] == again)
            && t.lastId == s.lastId && t.spoken == s.spoken && t.paused == s.paused
    ensures s.lastId + 1 == m.id ==>
              Step(s, Reload(m, prio, speaking)) ==
              Step(s, Queue(m.uid, 0, prio, speaking)).(lastId := s.lastId)
  {
    hide Kept;
    var again := Message(m.id, m.uid, 0);
    assert m.(reparted := 0) == again;
    KeptAppend(s.queues.p3, [again], InBlock(0));
    KeptOne(again, InBlock(0));
  }

  /** CANCEL all leaves nothing in the queues. */
  lemma CancelAllEmpties(s: State, prio: Priority)
    ensures Step(s, Event.CancelAll).queues.Get(prio) == []
    ensures Step(s, Event.CancelAll) == s.(queues := Step(s, Event.CancelAll).queues)
  {}

  /** STOP and STOP all change nothing but the queue of the current priority. */
  lemma StopElsewhere(s: State, uid: nat, speaking: bool, prio: Priority)
    requires prio != s.current
    ensures Step(s, Stop(uid, speaking)).queues.Get(prio) == s.queues.Get(prio)
    ensures Step(s, StopAll).queues.Get(prio) == s.queues.Get(prio)
    ensures !speaking ==> Step(s, Stop(uid, speaking)) == s
  {
    hide Stopped, AllStopped;
  }

  /** What thinning a queue out leaves of it, in the order it had. */
  lemma KeptIs(q: seq<Message>, id: nat, uid: nat, gid: nat, m: Message)
    ensures m in Kept(q, NotOlderThan(id)) <==> m in q && id <= m.id
    ensures m in Kept(q, NotFrom(uid)) <==> m in q && m.uid != uid
    ensures m in Kept(q, InBlock(gid)) <==> m in q && m.reparted == gid
    ensures Ascending(q) ==>
              Ascending(Kept(q, NotOlderThan(id))) && Ascending(Kept(q, NotFrom(uid)))
              && Ascending(Kept(q, InBlock(gid)))
  {
    hide Kept;
    KeptMembers(q, NotOlderThan(id));
    KeptMembers(q, NotFrom(uid));
    KeptMembers(q, InBlock(gid));
    KeptThins(q, NotOlderThan(id));
    KeptThins(q, NotFrom(uid));
    KeptThins(q, InBlock(gid));
  }
}
