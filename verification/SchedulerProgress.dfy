/** What is still waiting gets spoken: when nothing else arrives, nobody is paused and the
    modules take every message, a bounded number of turns empties the queues. */
module SchedulerProgress {
  import opened CStrings
  import opened Scheduler
  import opened SchedulerProperties

  const TURN := SpeakTurn({}, Said)

  /** Only turns of the speaking thread. */
  function Turns(n: nat): seq<Event>
  {
    if n == 0 then [] else [TURN] + Turns(n - 1)
  }

  /** How many turns that takes: a message of the progress block is moved and then spoken. */
  function Work(s: State): nat
  {
    var q := s.queues;
    |q.p1| + |q.p2| + |q.p3| + |q.p4| + |q.p5| + 2 * |s.block|
  }

  lemma {:induction false} InsertAllLength(q: seq<Message>, block: seq<Message>)
    ensures |InsertAll(q, block)| == |q| + |block|
    decreases block
  {
    hide InsertSorted;
    if block == [] {
    } else {
      InsertLength(q, block[0]);
      InsertAllLength(InsertSorted(q, block[0]), block[1..]);
    }
  }

  lemma {:induction false} InsertLength(q: seq<Message>, m: Message)
    ensures |InsertSorted(q, m)| == |q| + 1
  {
    if q == [] {
    } else {
      InsertLength(q[1..], m);
    }
  }

  lemma {:induction false} KeptLength(q: seq<Message>, t: Test)
    ensures |Kept(q, t)| <= |q|
  {
    hide Keeps;
    if q == [] {
    } else {
      KeptLength(q[1..], t);
    }
  }

  /** With nobody paused, a message is taken if one waits. */
  lemma {:induction false} PickFinds(q: Queues, n: nat)
    requires n <= 5
    ensures Pick(q, {}, n).None? <==> forall k | n <= k < 5 :: q.Get(Level(k)) == []
    decreases 5 - n
  {
    if n == 5 {
    } else {
      PickFinds(q, n + 1);
    }
  }

  lemma AllLevels(q: Queues)
    ensures (forall k | 0 <= k < 5 :: q.Get(Level(k)) == []) <==>
            q.p1 == [] && q.p2 == [] && q.p3 == [] && q.p4 == [] && q.p5 == []
  {
    assert Level(0) == Important && Level(1) == Ordinary && Level(2) == Text && Level(3) == Notification
           && Level(4) == Progress;
  }

  lemma TurnWorks(s: State)
    ensures var t := Step(s, TURN);
            t.paused == s.paused && (if Work(s) == 0 then t == s else Work(t) < Work(s))
  {
    hide Pick, InsertAll, Kept;
    PickFinds(s.queues, 0);
    AllLevels(s.queues);
    if s.block != [] {
      InsertAllLength(s.queues.p2, s.block);
      KeptLength(s.queues.p3, NotOlderThan(s.block[|s.block| - 1].id));
    }
  }

  lemma {:induction false} TurnsDrain(s: State, n: nat)
    requires Work(s) <= n
    ensures Work(Run(s, Turns(n))) == 0 && Run(s, Turns(n)).paused == s.paused
    decreases n
  {
    hide Step, Work;
    TurnWorks(s);
    if n == 0 {
    } else {
      assert Turns(n)[1..] == Turns(n - 1);
      TurnsDrain(Step(s, TURN), n - 1);
    }
  }

  lemma {:induction false} TurnsArePlain(s: State, n: nat, m: Message)
    ensures PlainRun(s, Turns(n)) && !WithdrawnIn(s, Turns(n), m)
    decreases n
  {
    hide Step, Alive, Settled;
    if n == 0 {
    } else {
      assert Turns(n)[1..] == Turns(n - 1);
      TurnsArePlain(Step(s, TURN), n - 1, m);
    }
  }

  /** In a drained state, alive means spoken or held for a paused client. */
  lemma DrainedAlive(s: State, m: Message)
    requires Work(s) == 0
    ensures Alive(m, s) <==> Settled(m, s)
  {
    forall prio: Priority ensures s.queues.Get(prio) == [] {}
  }

  /** A message that is kept alive is spoken within that many turns. */
  lemma AliveIsSpoken(s: State, n: nat, m: Message)
    requires Tracked(m, s) && m !in s.paused && Work(s) <= n
    ensures m.id in Run(s, Turns(n)).spoken <==> Alive(m, s) && !LosesIn(s, Turns(n), m)
  {
    hide Tracked, Alive, Run, Work, LosesIn;
    TurnsDrain(s, n);
    TurnsArePlain(s, n, m);
    LostIff(s, Turns(n), m);
    DrainedAlive(Run(s, Turns(n)), m);
  }

  /** After any run without RESUME, a waiting important or ordinary message whose client is
      not paused is spoken within as many turns as messages wait, those of the progress
      block counted twice. */
  lemma WaitingIsSpoken(before: seq<Event>, prio: Priority, m: Message, n: nat)
    requires NoResume(before)
    requires var s := Run(Initial(), before);
             m in s.queues.Get(prio) && (prio.Important? || prio.Ordinary?) && m !in s.paused && Work(s) <= n
    ensures m.id in Run(Run(Initial(), before), Turns(n)).spoken
  {
    hide Run, Inv, Initial, Tracked, Backed, Alive, Work;
    InitialInv();
    RunKeeps(Initial(), before);
    var s := Run(Initial(), before);
    WaitingTracked(s, prio, m);
    TurnsArePlain(s, n, m);
    AliveIsSpoken(s, n, m);
    OutsideTheBlock(s, Turns(n), m);
    NotForgotten(s, Turns(n), m);
  }

  /** So is the last message of a progress series, and any other that the progress block
      holds, unless the turns forget it. */
  lemma LastProgressIsSpoken(before: seq<Event>, m: Message, n: nat)
    requires NoResume(before) && m in Run(Initial(), before).block
    requires m !in Run(Initial(), before).paused && Work(Run(Initial(), before)) <= n
    ensures var s := Run(Initial(), before);
            (m.id in Run(s, Turns(n)).spoken <==> !LosesIn(s, Turns(n), m))
            && (!ForgetsIn(s, Turns(n), m) ==> m.id in Run(s, Turns(n)).spoken)
  {
    hide Run, Inv, Initial, Tracked, Backed, Alive, Work;
    InitialInv();
    RunKeeps(Initial(), before);
    var s := Run(Initial(), before);
    BlockTracked(s, m);
    TurnsArePlain(s, n, m);
    AliveIsSpoken(s, n, m);
    if !ForgetsIn(s, Turns(n), m) {
      NotForgotten(s, Turns(n), m);
    }
  }
}
