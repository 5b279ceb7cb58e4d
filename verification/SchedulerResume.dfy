/** The paused list: what PAUSE and the turns put there is found by RESUME, which leaves just
    the messages of clients that are still paused. */
module SchedulerResume {
  import opened CStrings
  import opened Scheduler
  import opened SchedulerProperties

  /** The messages of the list that are held, or those that are not, in their order. */
  function Among(q: seq<Message>, held: set<Message>, wanted: bool): seq<Message>
  {
    if q == [] then [] else (if (q[0] in held) == wanted then [q[0]] else []) + Among(q[1..], held, wanted)
  }

  /** A search of the list by RESUME takes the first message that is not held, and only that
      one, off the list; if all are held, it changes nothing. */
  lemma TakePausedExact(s: State, held: set<Message>)
    ensures var t := Step(s, TakePaused(held));
            if forall m | m in s.paused :: m in held then t == s
            else t == s.(paused := t.paused)
                 && exists i :: 0 <= i < |s.paused| && TakesFirst(s.paused, held, i, t.paused)
  {
    ReadyIsNotHeld(s.paused, held);
    var r := FirstReady(s.paused, held);
    if r.Some? {
      assert TakesFirst(s.paused, held, r.value, Step(s, TakePaused(held)).paused);
    }
  }

  lemma AmongStep(m: Message, q: seq<Message>, held: set<Message>, wanted: bool)
    ensures Among([m] + q, held, wanted) == (if (m in held) == wanted then [m] else []) + Among(q, held, wanted)
  {
    assert ([m] + q)[1..] == q;
  }

  lemma {:induction false} AmongConcat(a: seq<Message>, b: seq<Message>, held: set<Message>, wanted: bool)
    ensures Among(a + b, held, wanted) == Among(a, held, wanted) + Among(b, held, wanted)
  {
    hide Among;
    if a == [] {
      assert a + b == b && [] + Among(b, held, wanted) == Among(b, held, wanted);
      AmongEmpty(held, wanted);
    } else {
      var m, rest := a[0], a[1..];
      var one := if (m in held) == wanted then [m] else [];
      assert a == [m] + rest && a + b == [m] + (rest + b);
      AmongStep(m, rest, held, wanted);
      AmongStep(m, rest + b, held, wanted);
      AmongConcat(rest, b, held, wanted);
      assert one + (Among(rest, held, wanted) + Among(b, held, wanted))
             == one + Among(rest, held, wanted) + Among(b, held, wanted);
    }
  }

  lemma {:induction false} AmongAll(q: seq<Message>, held: set<Message>, wanted: bool)
    requires forall m | m in q :: (m in held) == wanted
    ensures Among(q, held, wanted) == q && Among(q, held, !wanted) == []
  {
    if q == [] {
    } else {
      assert q[0] in q && (forall m | m in q[1..] :: m in q) && [q[0]] + q[1..] == q;
      AmongAll(q[1..], held, wanted);
    }
  }

  lemma AmongSplit(q: seq<Message>, held: set<Message>, i: nat, wanted: bool)
    requires i < |q|
    ensures var one := if (q[i] in held) == wanted then [q[i]] else [];
            Among(q, held, wanted) == Among(q[..i], held, wanted) + one + Among(q[i + 1..], held, wanted)
    ensures Among(q[..i] + q[i + 1..], held, wanted) ==
            Among(q[..i], held, wanted) + Among(q[i + 1..], held, wanted)
  {
    var a, m, b := q[..i], q[i], q[i + 1..];
    assert q == a + ([m] + b) && ([m] + b)[1..] == b;
    AmongConcat(a, [m] + b, held, wanted);
    AmongConcat(a, b, held, wanted);
  }

  /** Taking the first message that is not held takes the first of the others. */
  lemma AmongTaken(q: seq<Message>, held: set<Message>, i: nat, left: seq<Message>)
    requires TakesFirst(q, held, i, left)
    ensures Among(left, held, true) == Among(q, held, true)
    ensures [q[i]] + Among(left, held, false) == Among(q, held, false)
  {
    hide Among;
    AmongSplit(q, held, i, true);
    AmongSplit(q, held, i, false);
    AmongAll(q[..i], held, true);
  }

  // ---- the loop of speak()

  /** What becomes of the n-th message taken: reload_message queues it, or fails. */
  type Reloads = nat -> Option<(Priority, bool)>

  function Requeued(s: State, taken: seq<Message>, reloads: Reloads): State
  {
    if taken == [] then s
    else
      var n := |taken| - 1;
      var t := Requeued(s, taken[..n], reloads);
      match reloads(n)
      case None => t
      case Some((prio, speaking)) => Enqueue(t, taken[n].(reparted := 0), prio, speaking)
  }

  lemma {:induction false} RequeuedPaused(s: State, taken: seq<Message>, reloads: Reloads, paused: seq<Message>)
    ensures Requeued(s, taken, reloads).paused == s.paused
    ensures Requeued(s.(paused := paused), taken, reloads) == Requeued(s, taken, reloads).(paused := paused)
    decreases |taken|
  {
    hide Resolve, BlockWith;
    if taken == [] {
    } else {
      RequeuedPaused(s, taken[..|taken| - 1], reloads, paused);
    }
  }

  lemma RequeuedNext(s: State, taken: seq<Message>, m: Message, reloads: Reloads)
    ensures Requeued(s, taken + [m], reloads) ==
            match reloads(|taken|)
            case None => Requeued(s, taken, reloads)
            case Some((prio, speaking)) => Enqueue(Requeued(s, taken, reloads), m.(reparted := 0), prio, speaking)
  {
    hide Enqueue;
    assert (taken + [m])[..|taken|] == taken;
  }

  /** The handling of a RESUME: each message whose client is not paused is taken once, in
      the order of the list, and queued again if it can be; just the others are left. */
  method ResumeAll(server: Server, held: set<Message>, reloads: Reloads) returns (taken: seq<Message>)
    modifies server
    ensures taken == Among(old(server.pausedList), held, false)
    ensures server.pausedList == Among(old(server.pausedList), held, true)
    ensures server.View() ==
            Requeued(old(server.View()).(paused := Among(old(server.pausedList), held, true)), taken, reloads)
  {
    hide Requeued, Among, Step, TakesFirst;
    taken := [];
    ghost var s := server.View();
    RequeuedNone(s, reloads);
    assert [] + Among(server.pausedList, held, false) == Among(server.pausedList, held, false);
    while true
      invariant taken + Among(server.pausedList, held, false) == Among(old(server.pausedList), held, false)
      invariant Among(server.pausedList, held, true) == Among(old(server.pausedList), held, true)
      invariant server.View() == Requeued(s, taken, reloads).(paused := server.pausedList)
      decreases |server.pausedList|
    {
      ghost var before := server.pausedList;
      var found := server.NextResumed(held);
      if found.None? {
        AmongAll(before, held, true);
        break;
      }
      ghost var i :| 0 <= i < |before| && before[i] == found.value
                        && TakesFirst(before, held, i, server.pausedList);
      TakesShorter(before, held, i, server.pausedList);
      AmongTaken(before, held, i, server.pausedList);
      assert taken + ([found.value] + Among(server.pausedList, held, false))
             == taken + [found.value] + Among(server.pausedList, held, false);
      RequeuedNext(s, taken, found.value, reloads);
      RequeuedPaused(s, taken, reloads, server.pausedList);
      var again := reloads(|taken|);
      if again.Some? {
        ReloadedPaused(Requeued(s, taken, reloads), found.value, again.value.0, again.value.1, server.pausedList);
        server.ReloadMessage(found.value, again.value.0, again.value.1);
      }
      taken := taken + [found.value];
    }
    RequeuedPaused(s, taken, reloads, server.pausedList);
    assert taken + [] == taken;
  }

  lemma RequeuedNone(s: State, reloads: Reloads)
    ensures Requeued(s, [], reloads) == s
  {}

  lemma ReloadedPaused(s: State, m: Message, prio: Priority, speaking: bool, paused: seq<Message>)
    ensures Step(s.(paused := paused), Reload(m, prio, speaking)) ==
            Enqueue(s, m.(reparted := 0), prio, speaking).(paused := paused)
  {
    hide Resolve, BlockWith;
  }

  // ---- over whole runs

  /** The step is a search of the paused list that takes m. */
  ghost predicate Takes(s: State, e: Event, m: Message)
  {
    e.TakePaused?
    && exists i :: 0 <= i < |s.paused| && s.paused[i] == m && m !in e.held
                   && forall k | 0 <= k < i :: s.paused[k] in e.held
  }

  ghost predicate TakenIn(s: State, events: seq<Event>, m: Message)
    decreases events
  {
    events != [] && (Takes(s, events[0], m) || TakenIn(Step(s, events[0]), events[1..], m))
  }

  /** Only a search by RESUME takes a message off the list. */
  lemma PausedStep(s: State, e: Event, m: Message)
    requires m in s.paused
    ensures m in Step(s, e).paused || Takes(s, e, m)
  {
    hide Resolve, BlockWith, Pick, InsertAll, Kept, Stopped, AllStopped, RemoveAt;
    if e.TakePaused? {
      TakePausedExact(s, e.held);
      if !(forall x | x in s.paused :: x in e.held) {
        var i :| 0 <= i < |s.paused| && TakesFirst(s.paused, e.held, i, Step(s, e).paused);
        var k :| 0 <= k < |s.paused| && s.paused[k] == m;
        if k < i {
          assert Step(s, e).paused[k] == m;
        } else if k > i {
          assert Step(s, e).paused[k - 1] == m;
        }
      }
    }
  }

  lemma {:induction false} PausedUntilTaken(s: State, events: seq<Event>, m: Message)
    requires m in s.paused
    ensures m in Run(s, events).paused || TakenIn(s, events, m)
    decreases events
  {
    hide Step, Takes;
    if events == [] {
    } else {
      PausedStep(s, events[0], m);
      if m in Step(s, events[0]).paused {
        PausedUntilTaken(Step(s, events[0]), events[1..], m);
      }
    }
  }

  /** n searches, as RESUME makes them until nothing is found. */
  function Searches(n: nat, held: set<Message>): seq<Event>
  {
    if n == 0 then [] else [TakePaused(held)] + Searches(n - 1, held)
  }

  /** As many searches as the list is long leave just the held messages, in their order,
      and take every other one. */
  lemma {:induction false} SearchesTakeAll(s: State, n: nat, held: set<Message>)
    requires |s.paused| <= n
    ensures Run(s, Searches(n, held)) == s.(paused := Among(s.paused, held, true))
    ensures forall m | m in s.paused && m !in held :: TakenIn(s, Searches(n, held), m)
    decreases n
  {
    hide Step, Takes, Among, TakesFirst;
    AmongEmpty(held, true);
    if n == 0 {
      assert s.paused == [];
    } else {
      var e := TakePaused(held);
      var t := Step(s, e);
      assert Searches(n, held)[1..] == Searches(n - 1, held);
      SearchStep(s, held);
      if forall m | m in s.paused :: m in held {
        HeldStays(s, n - 1, held);
      } else {
        SearchesTakeAll(t, n - 1, held);
        forall m | m in s.paused && m !in held ensures TakenIn(s, Searches(n, held), m) {
          PausedStep(s, e, m);
        }
      }
    }
  }

  lemma SearchStep(s: State, held: set<Message>)
    ensures var t := Step(s, TakePaused(held));
            if forall m | m in s.paused :: m in held then t == s && Among(s.paused, held, true) == s.paused
            else |t.paused| < |s.paused| && t == s.(paused := t.paused)
                 && Among(t.paused, held, true) == Among(s.paused, held, true)
  {
    hide Step, Among, TakesFirst;
    TakePausedExact(s, held);
    if forall m | m in s.paused :: m in held {
      AmongAll(s.paused, held, true);
    } else {
      var t := Step(s, TakePaused(held));
      var i :| 0 <= i < |s.paused| && TakesFirst(s.paused, held, i, t.paused);
      TakesShorter(s.paused, held, i, t.paused);
      AmongTaken(s.paused, held, i, t.paused);
    }
  }

  lemma AmongEmpty(held: set<Message>, wanted: bool)
    ensures Among([], held, wanted) == []
  {}

  lemma TakesShorter(q: seq<Message>, held: set<Message>, i: nat, left: seq<Message>)
    requires TakesFirst(q, held, i, left)
    ensures |left| < |q|
  {}

  lemma {:induction false} HeldStays(s: State, n: nat, held: set<Message>)
    requires forall m | m in s.paused :: m in held
    ensures Run(s, Searches(n, held)) == s
  {
    hide Step;
    if n == 0 {
    } else {
      assert Searches(n, held)[1..] == Searches(n - 1, held);
      TakePausedExact(s, held);
      HeldStays(s, n - 1, held);
    }
  }

  /** A message whose pause was confirmed is on the list until a RESUME takes it, whatever
      happens in between; and the first RESUME that finds its client going on does. */
  lemma PausedIsFound(s: State, m: Message, events: seq<Event>, held: set<Message>)
    ensures var t := Run(Step(s, Pause(m)), events);
            TakenIn(Step(s, Pause(m)), events, m)
            || (m in t.paused && (m !in held ==> TakenIn(t, Searches(|t.paused|, held), m)))
  {
    hide Run, TakenIn, Searches;
    var u := Step(s, Pause(m));
    PausedUntilTaken(u, events, m);
    SearchesTakeAll(Run(u, events), |Run(u, events).paused|, held);
  }

  /** So is one that was taken from its queue while its client was paused. */
  lemma HeldIsFound(s: State, busy: set<Message>, i: nat, prio: Priority, events: seq<Event>, held: set<Message>)
    requires Pick(s.queues, busy, 0) == Some((prio, i)) && (s.block == [] || s.queues.p5 != [])
    ensures var m, u := s.queues.Get(prio)[i], Step(s, SpeakTurn(busy, Held));
            var t := Run(u, events);
            TakenIn(u, events, m) || (m in t.paused && (m !in held ==> TakenIn(t, Searches(|t.paused|, held), m)))
  {
    hide Run, TakenIn, Searches, Pick, RemoveAt;
    var m, u := s.queues.Get(prio)[i], Step(s, SpeakTurn(busy, Held));
    PausedUntilTaken(u, events, m);
    SearchesTakeAll(Run(u, events), |Run(u, events).paused|, held);
  }
}
