/** What a delivery loop can always do: no reachable state leaves a message, its credit and its loop stuck. */
module DeliveryProgress {
  import opened Bytes
  import opened Broker
  import opened Delivery

  /** The message the loop will write next if nobody else takes it first. */
  function Upcoming(w: World, i: nat): seq<bytes>
    requires i < |w.loops|
  {
    var l := w.loops[i];
    if l.Hand() != [] then l.Hand() else w.b.Queue(l.link.address)
  }

  /** All it has to deliver: what it holds, then its queue. */
  function Left(w: World, i: nat): seq<bytes>
    requires i < |w.loops|
  {
    w.loops[i].Hand() + w.b.Queue(w.loops[i].link.address)
  }

  /** The transfers its credit still pays for. */
  function Paid(l: Loop): nat {
    l.link.credit as int + if l.phase.Sending? then 1 else 0
  }

  /** A live loop of an open link with credit, with something to deliver. */
  ghost predicate Supplied(w: World, i: nat) {
    && i < |w.loops|
    && !w.loops[i].phase.Finished? && !w.loops[i].link.closed && w.loops[i].link.credit > 0
    && Upcoming(w, i) != []
  }

  /** Supplied, or sending with the credit already taken; and nothing stands in the way of the next step. */
  ghost predicate Ready(w: World, i: nat, m: bytes) {
    && i < |w.loops|
    && var l := w.loops[i];
       && Upcoming(w, i) != [] && Upcoming(w, i)[0] == m
       && !l.phase.Finished? && !l.phase.Returning?
       && (l.phase.Sleeping? ==> l.phase.ch in w.b.closed)
       && (l.phase.Sending? || (!l.link.closed && l.link.credit > 0))
  }

  function OwnStep(l: Loop, i: nat): Step
    requires !l.phase.Finished? && !l.phase.Returning?
  {
    match l.phase
    case Idle => Take(i)
    case Empty => Wait(i)
    case Sleeping(_) => Wake(i)
    case Holding(_) => Credit(i)
    case Sending(_) => Write(i, true)
  }

  function StepsToGo(p: Phase): nat {
    match p
    case Empty => 5
    case Sleeping(_) => 4
    case Idle => 3
    case Holding(_) => 2
    case _ => 1
  }

  lemma OwnStepReady(w: World, i: nat, m: bytes)
    requires w.b.Valid() && Ready(w, i, m)
    ensures var (l, s) := (w.loops[i], OwnStep(w.loops[i], i));
            && Enabled(w, s)
            && var (w', a) := (Next(w, s), l.link.address);
               if l.phase.Sending? then Get(w'.log, a) == Get(w.log, a) + [Delivered(m)]
               else
                 && w'.log == w.log && Ready(w', i, m) && w'.loops[i].link.address == a
                 && StepsToGo(w'.loops[i].phase) == StepsToGo(l.phase) - 1
  {
    hide BrokerState.Valid;
    var l := w.loops[i];
    if l.phase.Empty? {
      WaitedKeeps(w.b, l.link.address);
    }
  }

  /** Such a step costs the credit of what it writes, and leaves the rest to deliver. */
  lemma OwnStepSpends(w: World, i: nat)
    requires i < |w.loops| && !w.loops[i].phase.Finished? && !w.loops[i].phase.Returning?
    requires w.loops[i].phase.Holding? ==> !w.loops[i].link.closed && w.loops[i].link.credit > 0
    requires Enabled(w, OwnStep(w.loops[i], i))
    ensures var (l, w') := (w.loops[i], Next(w, OwnStep(w.loops[i], i)));
            && i < |w'.loops| && w'.loops[i].link.address == l.link.address && w'.loops[i].link.closed == l.link.closed
            && (l.phase.Sending? ==> w'.loops[i].phase.Idle?)
            && var n := if l.phase.Sending? then 1 else 0;
               n <= |Left(w, i)| && Left(w', i) == Left(w, i)[n..] && Paid(w'.loops[i]) == Paid(l) - n
  {
    OwnQueue(w, i);
    OwnLoop(w, i);
    hide BrokerAfter, LoopAfter, LogAfter, OwnStep, BrokerState.Queue;
    var q := w.b.Queue(w.loops[i].link.address);
    if w.loops[i].phase.Idle? && q != [] {
      assert [q[0]] + q[1..] == q;
    }
  }

  lemma OwnQueue(w: World, i: nat)
    requires i < |w.loops| && !w.loops[i].phase.Finished? && !w.loops[i].phase.Returning?
    ensures var (l, s) := (w.loops[i], OwnStep(w.loops[i], i));
            var q := w.b.Queue(l.link.address);
            && Of(s) && s.i == i && !s.Subscribe? && !s.Publish? && !s.Attach?
            && BrokerAfter(w, s).Queue(l.link.address) == if l.phase.Idle? && q != [] then q[1..] else q
  {
    hide LoopAfter, LogAfter;
  }

  lemma OwnLoop(w: World, i: nat)
    requires i < |w.loops| && !w.loops[i].phase.Finished? && !w.loops[i].phase.Returning?
    requires w.loops[i].phase.Holding? ==> !w.loops[i].link.closed && w.loops[i].link.credit > 0
    requires !OwnStep(w.loops[i], i).Subscribe? && Of(OwnStep(w.loops[i], i))
    ensures var l := w.loops[i];
            var (q, l') := (w.b.Queue(l.link.address), LoopAfter(w, OwnStep(l, i)));
            && l'.link.address == l.link.address && l'.link.closed == l.link.closed
            && (l.phase.Sending? ==> l'.phase.Idle?)
            && Paid(l) == Paid(l') + (if l.phase.Sending? then 1 else 0)
            && l'.Hand() == if l.phase.Sending? then [] else if l.phase.Idle? && q != [] then [q[0]] else l.Hand()
  {
    hide BrokerAfter, LogAfter, BrokerState.Queue;
  }

  /** One message was delivered, and the loop goes on with the rest. */
  ghost predicate GoesOn(w: World, w': World, i: nat) {
    && i < |w.loops| && i < |w'.loops| && w'.loops[i].link.address == w.loops[i].link.address
    && w'.loops[i].link.closed == w.loops[i].link.closed && w'.loops[i].phase.Idle?
    && Left(w, i) != [] && Left(w', i) == Left(w, i)[1..] && Paid(w'.loops[i]) == Paid(w.loops[i]) - 1
  }

  /** The loop's own steps, one after the other, deliver the message. */
  lemma {:induction false} Delivers(steps: seq<Step>, i: nat, m: bytes) returns (more: seq<Step>)
    requires CanRun(INIT, steps) && Ready(After(INIT, steps), i, m)
    ensures var w := After(INIT, steps);
            && |more| == StepsToGo(w.loops[i].phase)
            && (forall k | 0 <= k < |more| :: Of(more[k]) && more[k].i == i)
            && CanRun(INIT, steps + more)
            && var (w', a) := (After(INIT, steps + more), w.loops[i].link.address);
               && Get(w'.log, a) == Get(w.log, a) + [Delivered(m)] && GoesOn(w, w', i)
    decreases StepsToGo(After(INIT, steps).loops[i].phase)
  {
    hide CanRun, After, Enabled, Next, Ready, Inv, LogAfter;
    var w := After(INIT, steps);
    ReadyLoop(w, i, m);
    var s := OwnStep(w.loops[i], i);
    Safety(steps);
    ValidBroker(w);
    OwnStepReady(w, i, m);
    OwnStepSpends(w, i);
    RunMore(steps, s, Next(w, s));
    if w.loops[i].phase.Sending? {
      more := [s];
    } else {
      ReadyLoop(Next(w, s), i, m);
      var rest := Delivers(steps + [s], i, m);
      more := [s] + rest;
      assert steps + more == steps + [s] + rest;
    }
  }

  lemma ReadyLoop(w: World, i: nat, m: bytes)
    requires Ready(w, i, m)
    ensures i < |w.loops| && !w.loops[i].phase.Finished? && !w.loops[i].phase.Returning?
    ensures w.loops[i].phase.Holding? ==> !w.loops[i].link.closed && w.loops[i].link.credit > 0
  {
  }

  lemma ValidBroker(w: World)
    requires Inv(w)
    ensures w.b.Valid()
  {
  }

  /** A loop gives its message back only when its link has closed. */
  lemma {:induction false} ReturningIsClosed(steps: seq<Step>, i: nat)
    requires CanRun(INIT, steps) && i < |After(INIT, steps).loops| && After(INIT, steps).loops[i].phase.Returning?
    ensures After(INIT, steps).loops[i].link.closed
    decreases |steps|
  {
    if steps != [] {
      hide Next, Enabled;
      var k := |steps| - 1;
      var w := After(INIT, steps[..k]);
      if i < |w.loops| && w.loops[i].phase.Returning? {
        ReturningIsClosed(steps[..k], i);
      }
      ReturningStep(w, steps[k], i);
    }
  }

  lemma ReturningStep(w: World, s: Step, i: nat)
    requires Enabled(w, s) && i < |Next(w, s).loops| && Next(w, s).loops[i].phase.Returning?
    requires i < |w.loops| && w.loops[i].phase.Returning? ==> w.loops[i].link.closed
    ensures Next(w, s).loops[i].link.closed
  {
    hide Fanned, BrokerAfter, LogAfter;
  }

  /**
   Progress: from every reachable state a live loop on an open link with credit can, in at most five steps
   of its own, deliver what it holds, or the first message of its queue.
   */
  lemma CanAlwaysDeliver(steps: seq<Step>, i: nat) returns (more: seq<Step>)
    requires CanRun(INIT, steps) && Supplied(After(INIT, steps), i)
    ensures |more| <= 5 && forall k | 0 <= k < |more| :: Of(more[k]) && more[k].i == i
    ensures CanRun(INIT, steps + more)
    ensures var w := After(INIT, steps);
            var a := w.loops[i].link.address;
            && Get(After(INIT, steps + more).log, a) == Get(w.log, a) + [Delivered(Upcoming(w, i)[0])]
            && GoesOn(w, After(INIT, steps + more), i)
  {
    hide CanRun, After, Enabled, LogAfter;
    var w := After(INIT, steps);
    if w.loops[i].phase.Sleeping? {
      NoLostWakeup(steps, i);
      WakeChannel(w, i);
    }
    if w.loops[i].phase.Returning? {
      ReturningIsClosed(steps, i);
    }
    more := Delivers(steps, i, Upcoming(w, i)[0]);
  }

  function AllDelivered(ms: seq<bytes>): (r: seq<Outcome>)
    ensures |r| == |ms| && forall k | 0 <= k < |ms| :: r[k] == Delivered(ms[k])
  {
    seq(|ms|, k requires 0 <= k < |ms| => Delivered(ms[k]))
  }

  /** And so on: in at most five steps each it can deliver as many messages as it has credit for, in order. */
  lemma {:induction false} CanAlwaysDeliverAll(steps: seq<Step>, i: nat, n: nat) returns (more: seq<Step>)
    requires CanRun(INIT, steps) && i < |After(INIT, steps).loops|
    requires var w := After(INIT, steps);
             && !w.loops[i].phase.Finished? && !w.loops[i].link.closed
             && n <= w.loops[i].link.credit as int && n <= |Left(w, i)|
    ensures |more| <= 5 * n && forall k | 0 <= k < |more| :: Of(more[k]) && more[k].i == i
    ensures CanRun(INIT, steps + more)
    ensures var w := After(INIT, steps);
            var a := w.loops[i].link.address;
            Get(After(INIT, steps + more).log, a) == Get(w.log, a) + AllDelivered(Left(w, i)[..n])
    decreases n
  {
    hide CanRun, After;
    var w := After(INIT, steps);
    var a := w.loops[i].link.address;
    if n == 0 {
      more := [];
      assert steps + [] == steps && Get(w.log, a) + AllDelivered([]) == Get(w.log, a) && Left(w, i)[..0] == [];
    } else {
      var one := CanAlwaysDeliver(steps, i);
      var w' := After(INIT, steps + one);
      var rest := CanAlwaysDeliverAll(steps + one, i, n - 1);
      more := one + rest;
      assert steps + more == steps + one + rest;
      var ms := Left(w, i);
      assert Upcoming(w, i)[0] == ms[0];
      assert AllDelivered(ms[..n]) == [Delivered(ms[0])] + AllDelivered(ms[1..][..n - 1]);
      AppendAssoc(Get(w.log, a), [Delivered(ms[0])], AllDelivered(ms[1..][..n - 1]));
    }
  }

  lemma WakeChannel(w: World, i: nat)
    requires Enabled(w, Wake(i))
    ensures i < |w.loops| && w.loops[i].phase.Sleeping? && w.loops[i].phase.ch in w.b.closed
  {
  }
}
