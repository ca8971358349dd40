/** What the single steps of a delivery come to over runs: who receives a message, what a drain and a close stop. */
module DeliveryLaws {
  import opened Bytes
  import opened Broker
  import opened Delivery

  // ---- Who receives a message ----

  predicate Subscribed(steps: seq<Step>, sub: Address) {
    exists k | 0 <= k < |steps| :: steps[k] == Subscribe(sub)
  }

  /** The subscriptions of a topic are exactly the addresses under it that were subscribed. */
  lemma {:induction false} SubscribersExactly(steps: seq<Step>, t: Address)
    requires CanRun(INIT, steps)
    ensures forall s :: s in Subscriptions(After(INIT, steps).b, t) <==> Subscribed(steps, s) && IsUnder(s, t)
    decreases |steps|
  {
    hide IsUnder, Subscriptions, Enabled, Next;
    if steps == [] {
      NobodyYet(t);
    } else {
      var k := |steps| - 1;
      SubscribersExactly(steps[..k], t);
      SubscribersStep(After(INIT, steps[..k]), steps[k], t);
      forall s ensures Subscribed(steps, s) <==> Subscribed(steps[..k], s) || steps[k] == Subscribe(s) {
        LastStep(steps, s);
      }
    }
  }

  lemma NobodyYet(t: Address)
    ensures Subscriptions(INIT.b, t) == {}
  {
  }

  lemma LastStep(steps: seq<Step>, s: Address)
    requires steps != []
    ensures var k := |steps| - 1; Subscribed(steps, s) <==> Subscribed(steps[..k], s) || steps[k] == Subscribe(s)
  {
    var k := |steps| - 1;
    if j :| 0 <= j < |steps| && steps[j] == Subscribe(s) {
      assert j < k ==> steps[..k][j] == Subscribe(s);
    }
    if j :| 0 <= j < k && steps[..k][j] == Subscribe(s) {
      assert steps[j] == Subscribe(s);
    }
  }

  lemma SubscribersStep(w: World, s: Step, t: Address)
    requires Enabled(w, s)
    ensures Subscriptions(Next(w, s).b, t) ==
            Subscriptions(w.b, t) + if s.Subscribe? && IsUnder(s.sub, t) then {s.sub} else {}
  {
    hide Targets, IsUnder;
    match s
    case Subscribe(sub) => RegisteredUnder(w.b, sub);
    case Publish(_, _, _) =>
    case _ => assert Next(w, s).b.topicSubs == w.b.topicSubs by { TopicsKept(w, s); }
  }

  lemma TopicsKept(w: World, s: Step)
    requires Enabled(w, s) && !s.Subscribe? && !s.Publish?
    ensures Next(w, s).b.topicSubs == w.b.topicSubs
  {
    hide Targets, LoopAfter, LogAfter;
  }

  /** What is sent to an address goes to the subscriptions under it, or to its own queue when it has none. */
  ghost predicate Receives(steps: seq<Step>, to: Address, a: Address) {
    if exists s :: Subscribed(steps, s) && IsUnder(s, to) then Subscribed(steps, a) && IsUnder(a, to) else a == to
  }

  /** After any run a message puts one copy at the end of the queues it is for, and changes no other. */
  lemma PublishReaches(steps: seq<Step>, to: Address, m: bytes, after: BrokerState)
    requires CanRun(INIT, steps) && Enabled(After(INIT, steps), Publish(to, m, after))
    ensures forall a :: after.Queue(a) == After(INIT, steps).b.Queue(a) + if Receives(steps, to, a) then [m] else []
  {
    hide CanRun, After, IsUnder, Subscribed, Woken;
    SubscribersExactly(steps, to);
    var b := After(INIT, steps).b;
    forall a ensures a in Targets(b, to) <==> Receives(steps, to, a) {
      if exists s :: Subscribed(steps, s) && IsUnder(s, to) {
        var s :| Subscribed(steps, s) && IsUnder(s, to);
        assert s in Subscriptions(b, to);
      } else {
        assert forall s :: s !in Subscriptions(b, to);
        assert Subscriptions(b, to) == {};
      }
    }
  }

  /** A message can be sent in every state, whatever its receivers are. */
  lemma CanAlwaysPublish(w: World, to: Address, m: bytes) returns (after: BrokerState)
    ensures Enabled(w, Publish(to, m, after))
  {
    var (b, ts) := (w.b, Targets(w.b, to));
    hide Targets;
    after := b.(queues := map a | a in b.queues.Keys + ts :: b.Queue(a) + if a in ts then [m] else [],
                waiters := b.waiters - ts, closed := b.closed + Woken(b, ts));
    forall a
      ensures after.Queue(a) == b.Queue(a) + if a in ts then [m] else []
      ensures after.Waiters(a) == if a in ts then [] else b.Waiters(a)
    {
      assert b.Queue(a) + [] == b.Queue(a);
    }
  }

  /** After any run an address may subscribe, and the next message to its topic is then at the end of its queue. */
  lemma SubscriberServed(steps: seq<Step>, sub: Address, to: Address, m: bytes) returns (after: BrokerState)
    requires CanRun(INIT, steps) && IsUnder(sub, to)
    ensures CanRun(INIT, steps + [Subscribe(sub)] + [Publish(to, m, after)])
    ensures After(INIT, steps + [Subscribe(sub)] + [Publish(to, m, after)]).b.Queue(sub) ==
            After(INIT, steps).b.Queue(sub) + [m]
  {
    hide CanRun, After, IsUnder, Subscribed, Fanned, Targets;
    var w := After(INIT, steps);
    assert Enabled(w, Subscribe(sub));
    RunMore(steps, Subscribe(sub), Next(w, Subscribe(sub)));
    var now := steps + [Subscribe(sub)];
    var next := After(INIT, now);
    after := CanAlwaysPublish(next, to, m);
    RunMore(now, Publish(to, m, after), Next(next, Publish(to, m, after)));
    PublishReaches(now, to, m, after);
    assert Subscribed(now, sub) by { SubscribedNow(now, sub); }
    assert next.b.Queue(sub) == w.b.Queue(sub) by { RegisterQueues(w.b, sub); }
  }

  lemma SubscribedNow(steps: seq<Step>, sub: Address)
    requires steps != [] && steps[|steps| - 1] == Subscribe(sub)
    ensures Subscribed(steps, sub)
  {
  }

  lemma RegisterQueues(b: BrokerState, sub: Address)
    ensures forall a :: Register(b, sub).Queue(a) == b.Queue(a)
  {
  }

  // ---- What stops ----

  /** A loop that could not write a transfer has dropped that message and writes nothing after it. */
  lemma FailedWriteEnds(w: World, i: nat, more: seq<Step>)
    requires Enabled(w, Write(i, false)) && CanRun(Next(w, Write(i, false)), more)
    ensures var w' := After(Next(w, Write(i, false)), more);
            && i < |w'.loops| && w'.loops[i].phase.Finished? && w'.loops[i].written == w.loops[i].written + 1
  {
    hide CanRun, After;
    FinishedHolds(Next(w, Write(i, false)), i, more);
  }

  lemma {:induction false} FinishedHolds(w: World, i: nat, more: seq<Step>)
    requires CanRun(w, more) && i < |w.loops| && w.loops[i].phase.Finished?
    ensures var w' := After(w, more);
            && i < |w'.loops| && w'.loops[i].phase.Finished? && w'.loops[i].written == w.loops[i].written
    decreases |more|
  {
    if more != [] {
      hide Next, Enabled;
      var k := |more| - 1;
      FinishedHolds(w, i, more[..k]);
      FinishedStep(After(w, more[..k]), more[k], i);
    }
  }

  lemma FinishedStep(w: World, s: Step, i: nat)
    requires Enabled(w, s) && i < |w.loops| && w.loops[i].phase.Finished?
    ensures var w' := Next(w, s);
            && i < |w'.loops| && w'.loops[i].phase.Finished? && w'.loops[i].written == w.loops[i].written
  {
    hide Fanned, BrokerAfter, LogAfter;
  }

  /** A drain takes all credit away; without a new grant at most the transfer already paid for is still written. */
  lemma DrainStops(w: World, i: nat, more: seq<Step>)
    requires i < |w.loops| && CanRun(Next(w, Drain(i)), more)
    requires forall k | 0 <= k < |more| :: !Grants(more[k], i)
    ensures var w' := After(Next(w, Drain(i)), more);
            && i < |w'.loops| && w'.loops[i].link.credit == 0
            && w'.loops[i].written <= w.loops[i].written + Owed(w.loops[i])
  {
    hide CanRun, After;
    DrainHolds(Next(w, Drain(i)), more, i);
  }

  /** Nor does a link that has closed write more than that, whatever is granted to it. */
  lemma CloseStops(w: World, i: nat, more: seq<Step>)
    requires i < |w.loops| && CanRun(Next(w, Close(i)), more)
    ensures var w' := After(Next(w, Close(i)), more);
            && i < |w'.loops| && w'.loops[i].link.closed
            && w'.loops[i].written <= w.loops[i].written + Owed(w.loops[i])
  {
    hide CanRun, After;
    ClosedHolds(Next(w, Close(i)), i, more);
  }

  lemma {:induction false} ClosedHolds(w: World, i: nat, more: seq<Step>)
    requires CanRun(w, more) && i < |w.loops| && w.loops[i].link.closed
    ensures var w' := After(w, more);
            && i < |w'.loops| && w'.loops[i].link.closed
            && w'.loops[i].written + Owed(w'.loops[i]) == w.loops[i].written + Owed(w.loops[i])
    decreases |more|
  {
    if more != [] {
      hide Next, Enabled;
      var k := |more| - 1;
      ClosedHolds(w, i, more[..k]);
      ClosedStep(After(w, more[..k]), more[k], i);
    }
  }

  lemma ClosedStep(w: World, s: Step, i: nat)
    requires Enabled(w, s) && i < |w.loops| && w.loops[i].link.closed
    ensures var w' := Next(w, s);
            && i < |w'.loops| && w'.loops[i].link.closed
            && w'.loops[i].written + Owed(w'.loops[i]) == w.loops[i].written + Owed(w.loops[i])
  {
    hide Fanned, BrokerAfter, LogAfter;
  }

  // ---- A closed link's loop ends ----

  /** A loop that is not writing, its link closed. */
  ghost predicate Leaving(w: World, i: nat) {
    && i < |w.loops| && w.loops[i].link.closed
    && !w.loops[i].phase.Finished? && !w.loops[i].phase.Sending?
  }

  function LeavingStep(l: Loop, i: nat): Step
    requires !l.phase.Finished? && !l.phase.Sending?
  {
    match l.phase
    case Idle => Take(i)
    case Empty => Wait(i)
    case Sleeping(_) => Quit(i)
    case Holding(_) => Credit(i)
    case Returning(_) => Return(i)
  }

  function StepsLeft(p: Phase): nat {
    match p
    case Idle => 3
    case Empty => 2
    case Holding(_) => 2
    case Finished => 0
    case _ => 1
  }

  lemma LeavingReady(w: World, i: nat)
    requires Leaving(w, i)
    ensures var s := LeavingStep(w.loops[i], i); Enabled(w, s) && Of(s) && s.i == i
  {
  }

  lemma LeavingNears(w: World, i: nat)
    requires Leaving(w, i) && Enabled(w, LeavingStep(w.loops[i], i))
    ensures var (l, w') := (w.loops[i], Next(w, LeavingStep(w.loops[i], i)));
            && i < |w'.loops| && w'.loops[i].link.address == l.link.address && w'.log == w.log
            && StepsLeft(w'.loops[i].phase) < StepsLeft(l.phase) && (Leaving(w', i) || w'.loops[i].phase.Finished?)
  {
    hide BrokerAfter, BrokerState.Queue;
  }

  lemma LeavingKeeps(w: World, i: nat)
    requires Leaving(w, i) && Enabled(w, LeavingStep(w.loops[i], i))
    ensures var (l, w') := (w.loops[i], Next(w, LeavingStep(w.loops[i], i)));
            && i < |w'.loops|
            && w'.loops[i].Hand() + w'.b.Queue(l.link.address) == l.Hand() + w.b.Queue(l.link.address)
  {
    hide LogAfter;
    var l := w.loops[i];
    var a := l.link.address;
    if l.phase.Idle? && w.b.Queue(a) != [] {
      assert w.b.Queue(a) == [w.b.Queue(a)[0]] + w.b.Queue(a)[1..];
    }
  }

  /** A step nearer to its end, the loop holding or having given back the same. */
  ghost predicate Nearer(w: World, w': World, i: nat) {
    && i < |w.loops| && i < |w'.loops|
    && var (l, l') := (w.loops[i], w'.loops[i]);
       && l'.link.address == l.link.address && w'.log == w.log
       && l'.Hand() + w'.b.Queue(l.link.address) == l.Hand() + w.b.Queue(l.link.address)
       && StepsLeft(l'.phase) < StepsLeft(l.phase) && (Leaving(w', i) || l'.phase.Finished?)
  }

  lemma LeavingGoesOn(steps: seq<Step>, i: nat) returns (s: Step)
    requires CanRun(INIT, steps) && Leaving(After(INIT, steps), i)
    ensures Of(s) && s.i == i && CanRun(INIT, steps + [s])
    ensures Nearer(After(INIT, steps), After(INIT, steps + [s]), i)
  {
    hide CanRun, After, Enabled, Next, LeavingStep, StepsLeft, Of;
    var w := After(INIT, steps);
    s := LeavingStep(w.loops[i], i);
    LeavingReady(w, i);
    LeavingNears(w, i);
    LeavingKeeps(w, i);
    RunMore(steps, s, Next(w, s));
  }

  /** The loop has ended, and what it held is back at the front of its queue. */
  ghost predicate HasLeft(w: World, w': World, i: nat) {
    && i < |w.loops| && i < |w'.loops| && w'.loops[i].phase.Finished? && w'.log == w.log
    && var (l, a) := (w.loops[i], w.loops[i].link.address); w'.b.Queue(a) == l.Hand() + w.b.Queue(a)
  }

  lemma LeftLater(w: World, next: World, w': World, i: nat)
    requires Nearer(w, next, i) && ((next.loops[i].phase.Finished? && w' == next) || HasLeft(next, w', i))
    ensures HasLeft(w, w', i)
  {
    if next.loops[i].phase.Finished? { FinishedHand(next.loops[i], next.b.Queue(w.loops[i].link.address)); }
  }

  predicate OwnSteps(more: seq<Step>, i: nat) {
    forall s | s in more :: Of(s) && s.i == i
  }

  /** From every reachable state the loop of a closed link can end in at most three steps of its own. */
  lemma {:induction false} CanAlwaysLeave(steps: seq<Step>, i: nat) returns (more: seq<Step>)
    requires CanRun(INIT, steps) && Leaving(After(INIT, steps), i)
    ensures |more| <= StepsLeft(After(INIT, steps).loops[i].phase) <= 3 && OwnSteps(more, i)
    ensures CanRun(INIT, steps + more) && HasLeft(After(INIT, steps), After(INIT, steps + more), i)
    decreases StepsLeft(After(INIT, steps).loops[i].phase)
  {
    hide *;
    var s := LeavingGoesOn(steps, i);
    var w, next := After(INIT, steps), After(INIT, steps + [s]);
    NearerSteps(w, next, i);
    if next.loops[i].phase.Finished? {
      more := [s];
      LeftLater(w, next, next, i);
      OwnCons(s, [], i);
      assert [s] + [] == [s];
    } else {
      var rest := CanAlwaysLeave(steps + [s], i);
      more := [s] + rest;
      assert steps + more == steps + [s] + rest;
      LeftLater(w, next, After(INIT, steps + more), i);
      OwnCons(s, rest, i);
    }
  }

  lemma NearerSteps(w: World, next: World, i: nat)
    requires Nearer(w, next, i)
    ensures i < |w.loops| && i < |next.loops| && StepsLeft(next.loops[i].phase) < StepsLeft(w.loops[i].phase) <= 3
    ensures next.loops[i].phase.Finished? || Leaving(next, i)
  {
  }

  lemma OwnCons(s: Step, more: seq<Step>, i: nat)
    requires Of(s) && s.i == i && (more == [] || OwnSteps(more, i))
    ensures OwnSteps([s] + more, i)
  {
  }

  lemma FinishedHand(l: Loop, q: seq<bytes>)
    requires l.phase.Finished?
    ensures l.Hand() + q == q
  {
  }
}
