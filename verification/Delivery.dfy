/**
 Delivery to client receivers: any number of connections sending, granting credit,
 draining and detaching, interleaved with the delivery loops they start, over one broker.
 */
module Delivery {
  import opened Bytes
  import opened Broker
  import opened Link

  /** Where a delivery loop stands between two atomic operations. */
  datatype Phase =
    | Idle                  // nothing in hand, about to dequeue
    | Empty                 // saw the queue empty, about to ask for a wait channel
    | Sleeping(ch: Chan)    // blocked on the channel or on the link's end
    | Holding(m: bytes)     // blocked in takeCredit with a message in hand
    | Sending(m: bytes)     // credit taken, about to write the transfer
    | Returning(m: bytes)   // the link closed first, about to requeue
    | Finished

  /**
   A receiver link and its loop. `granted` adds up every credit the client gave,
   `count` every credit taken and `written` every transfer the loop tried to write.
   */
  datatype Loop = Loop(link: LinkState, phase: Phase, granted: nat, count: nat, written: nat)
  {
    function Hand(): seq<bytes> {
      if phase.Holding? || phase.Sending? || phase.Returning? then [phase.m] else []
    }
  }

  datatype Outcome = Delivered(m: bytes) | Dropped(m: bytes)

  /** `sent` and `log` record, for every address, what was enqueued and what became of what was taken, in order. */
  datatype World = World(b: BrokerState, loops: seq<Loop>,
                         sent: map<Address, seq<bytes>>, log: map<Address, seq<Outcome>>)

  datatype Step =
    | Subscribe(sub: Address)
    | Publish(a: Address, msg: bytes, after: BrokerState)
    | Attach(a: Address)
    | Grant(i: nat, deliveryCount: uint32, credit: uint32)
    | Drain(i: nat)
    | Close(i: nat)
    | Take(i: nat)
    | Wait(i: nat)
    | Wake(i: nat)
    | Quit(i: nat)
    | Credit(i: nat)
    | Return(i: nat)
    | Write(i: nat, ok: bool)

  function Get<T>(m: map<Address, seq<T>>, a: Address): seq<T> {
    if a in m then m[a] else []
  }

  /**
   Blocking operations are guards: takeCredit waits for credit or the link's end, a select for one of
   its channels.
   */
  ghost predicate Enabled(w: World, s: Step) {
    match s
    case Subscribe(_) => true
    case Publish(a, m, after) => Fanned(w.b, Targets(w.b, a), m, after)
    case Attach(_) => true
    case _ =>
      && s.i < |w.loops|
      && var l := w.loops[s.i];
         match s
         case Take(_) => l.phase.Idle?
         case Wait(_) => l.phase.Empty?
         case Wake(_) => l.phase.Sleeping? && l.phase.ch in w.b.closed
         case Quit(_) => l.phase.Sleeping? && l.link.closed
         case Credit(_) => l.phase.Holding? && (l.link.closed || l.link.credit > 0)
         case Return(_) => l.phase.Returning?
         case Write(_, _) => l.phase.Sending?
         case _ => true
  }

  /** What a step of a link or its loop does to the loop. */
  function LoopAfter(w: World, s: Step): Loop
    requires !s.Subscribe? && !s.Publish? && !s.Attach? && s.i < |w.loops|
  {
    var l := w.loops[s.i];
    match s
    case Grant(_, _, credit) => l.(link := Credited(l.link, credit), granted := l.granted + credit)
    case Drain(_) => l.(link := l.link.(credit := 0))
    case Close(_) => l.(link := l.link.(closed := true))
    case Take(_) => l.(phase := if w.b.Queue(l.link.address) == [] then Empty else Holding(w.b.Queue(l.link.address)[0]))
    case Wait(_) => l.(phase := Sleeping(w.b.next))
    case Wake(_) => l.(phase := Idle)
    case Quit(_) => l.(phase := Finished)
    case Credit(_) =>
      if !l.phase.Holding? then l
      else if l.link.closed || l.link.credit == 0 then l.(phase := Returning(l.phase.m))
      else l.(link := Taken(l.link), count := l.count + 1, phase := Sending(l.phase.m))
    case Return(_) => l.(phase := Finished)
    case Write(_, ok) => l.(phase := if ok then Idle else Finished, written := l.written + 1)
  }

  /** What it does to the broker. */
  function BrokerAfter(w: World, s: Step): BrokerState
    requires !s.Subscribe? && !s.Publish? && !s.Attach? && s.i < |w.loops|
  {
    var l := w.loops[s.i];
    match s
    case Take(_) => Dequeued(w.b, l.link.address)
    case Wait(_) => Waited(w.b, l.link.address)
    case Return(_) => if l.phase.Returning? then Requeued(w.b, l.link.address, l.phase.m) else w.b
    case _ => w.b
  }

  /** A transfer that cannot be written is dropped, and its loop ends. */
  function LogAfter(w: World, s: Step): map<Address, seq<Outcome>>
    requires !s.Subscribe? && !s.Publish? && !s.Attach? && s.i < |w.loops|
  {
    var l := w.loops[s.i];
    if s.Write? && l.phase.Sending? then
      w.log[l.link.address := Get(w.log, l.link.address) + [if s.ok then Delivered(l.phase.m) else Dropped(l.phase.m)]]
    else w.log
  }

  function NewLoop(a: Address): Loop {
    Loop(Fresh(a, false, false), Idle, 0, 0, 0)
  }

  ghost function Next(w: World, s: Step): World
    requires Enabled(w, s)
  {
    match s
    case Subscribe(sub) => w.(b := Register(w.b, sub))
    case Publish(a, m, after) =>
      w.(b := after,
         sent := map x | x in w.sent.Keys + Targets(w.b, a) ::
                   Get(w.sent, x) + if x in Targets(w.b, a) then [m] else [])
    case Attach(a) => w.(loops := w.loops + [NewLoop(a)])
    case _ => World(BrokerAfter(w, s), w.loops[s.i := LoopAfter(w, s)], w.sent, LogAfter(w, s))
  }

  const INIT := World(EMPTY, [], map[], map[])

  ghost predicate CanRun(w: World, steps: seq<Step>)
    decreases |steps|, 0
  {
    steps != [] ==>
      var k := |steps| - 1;
      CanRun(w, steps[..k]) && Enabled(After(w, steps[..k]), steps[k])
  }

  ghost function After(w: World, steps: seq<Step>): World
    requires CanRun(w, steps)
    decreases |steps|, 1
  {
    if steps == [] then w
    else var k := |steps| - 1; Next(After(w, steps[..k]), steps[k])
  }

  // ---- Every message is in exactly one place ----

  function Hands(loops: seq<Loop>, a: Address): seq<bytes> {
    if loops == [] then []
    else
      var l := loops[|loops| - 1];
      Hands(loops[..|loops| - 1], a) + if l.link.address == a then l.Hand() else []
  }

  function Settled(log: seq<Outcome>): (r: seq<bytes>)
    ensures |r| == |log| && forall i | 0 <= i < |log| :: r[i] == log[i].m
  {
    seq(|log|, i requires 0 <= i < |log| => log[i].m)
  }

  /** Every copy enqueued at a is in the queue, in one loop's hand, or settled: none lost, none doubled. */
  ghost predicate Conserved(w: World, a: Address) {
    multiset(Get(w.sent, a)) ==
    multiset(w.b.Queue(a)) + multiset(Hands(w.loops, a)) + multiset(Settled(Get(w.log, a)))
  }

  lemma {:induction false} SameHands(loops: seq<Loop>, i: nat, l: Loop, a: Address)
    requires i < |loops| && l.link.address == loops[i].link.address
    requires l.link.address != a || l.Hand() == loops[i].Hand()
    ensures Hands(loops[i := l], a) == Hands(loops, a)
  {
    hide Loop.Hand;
    var k := |loops| - 1;
    if i < k {
      SameHands(loops[..k], i, l, a);
      assert loops[i := l][..k] == loops[..k][i := l];
    } else {
      assert loops[i := l][..k] == loops[..k];
    }
  }

  lemma {:induction false} HandsUpdate(loops: seq<Loop>, i: nat, l: Loop, a: Address)
    requires i < |loops| && l.link.address == loops[i].link.address == a
    ensures multiset(Hands(loops[i := l], a)) + multiset(loops[i].Hand()) ==
            multiset(Hands(loops, a)) + multiset(l.Hand())
  {
    hide Loop.Hand;
    var k := |loops| - 1;
    if i < k {
      HandsUpdate(loops[..k], i, l, a);
      assert loops[i := l][..k] == loops[..k][i := l];
      var h := if loops[k].link.address == a then loops[k].Hand() else [];
      Exchange(Hands(loops[..k][i := l], a), Hands(loops[..k], a), loops[i].Hand(), l.Hand(), h);
    } else {
      assert loops[i := l][..k] == loops[..k];
      assert Hands(loops, a) == Hands(loops[..k], a) + loops[k].Hand();
      assert Hands(loops[i := l], a) == Hands(loops[..k], a) + l.Hand();
    }
  }

  lemma Exchange(x: seq<bytes>, y: seq<bytes>, b: seq<bytes>, c: seq<bytes>, h: seq<bytes>)
    requires multiset(x) + multiset(b) == multiset(y) + multiset(c)
    ensures multiset(x + h) + multiset(b) == multiset(y + h) + multiset(c)
  {
    forall m ensures (multiset(x + h) + multiset(b))[m] == (multiset(y + h) + multiset(c))[m] {
      assert (multiset(x) + multiset(b))[m] == (multiset(y) + multiset(c))[m];
      assert multiset(x + h)[m] == multiset(x)[m] + multiset(h)[m];
      assert multiset(y + h)[m] == multiset(y)[m] + multiset(h)[m];
    }
  }

  /** A loop's own move and the change of all hands together balance. */
  lemma Balance(sent: multiset<bytes>, q: multiset<bytes>, q': multiset<bytes>, s: multiset<bytes>, s': multiset<bytes>,
                all: multiset<bytes>, all': multiset<bytes>, h: multiset<bytes>, h': multiset<bytes>)
    requires sent == q + all + s
    requires s' + h' + q' == s + h + q && all' + h == all + h'
    ensures sent == q' + all' + s'
  {
    forall m ensures sent[m] == (q' + all' + s')[m] {
      assert (s' + h' + q')[m] == (s + h + q)[m] && (all' + h)[m] == (all + h')[m];
    }
  }

  lemma SettledAppend(log: seq<Outcome>, o: Outcome)
    ensures Settled(log + [o]) == Settled(log) + [o.m]
  {
  }

  // ---- What holds in every state ----

  /** A sleeping loop's channel is registered for its queue or already closed. */
  ghost predicate Wakeable(b: BrokerState, l: Loop) {
    l.phase.Sleeping? ==> l.phase.ch in b.closed || l.phase.ch in b.Waiters(l.link.address)
  }

  predicate CreditKept(l: Loop) {
    && l.count + l.link.credit <= l.granted
    && l.link.deliveryCount == ToUint32(l.count)
    && l.count == l.written + if l.phase.Sending? then 1 else 0
  }

  ghost predicate Inv(w: World) {
    && w.b.Valid()
    && (forall i | 0 <= i < |w.loops| :: Wakeable(w.b, w.loops[i]) && CreditKept(w.loops[i]))
    && (forall a :: Conserved(w, a))
  }

  lemma WakeableStep(w: World, s: Step, l: Loop)
    requires w.b.Valid() && Enabled(w, s) && Wakeable(w.b, l)
    ensures Wakeable(Next(w, s).b, l)
  {
    hide BrokerState.Valid;
    match s
    case Subscribe(sub) =>
    case Publish(a, m, after) =>
      if l.phase.Sleeping? && l.phase.ch !in w.b.closed && l.link.address in Targets(w.b, a) {
        assert l.phase.ch in Woken(w.b, Targets(w.b, a));
      }
    case _ =>
  }

  lemma BrokerStep(w: World, s: Step)
    requires w.b.Valid() && Enabled(w, s)
    ensures Next(w, s).b.Valid()
  {
    hide BrokerState.Valid;
    match s
    case Subscribe(sub) => RegisterKeeps(w.b, sub);
    case Publish(a, m, after) => FannedKeeps(w.b, Targets(w.b, a), m, after);
    case Take(i) => DequeuedKeeps(w.b, w.loops[i].link.address);
    case Wait(i) => WaitedKeeps(w.b, w.loops[i].link.address);
    case Return(i) =>
      var l := w.loops[i];
      PutQueueKeeps(w.b, l.link.address, [l.phase.m] + w.b.Queue(l.link.address));
    case _ =>
  }

  predicate Of(s: Step) {
    !s.Subscribe? && !s.Publish? && !s.Attach?
  }

  /**
   What a loop does at its own address: it takes from the front of the queue, gives back to it, or
   settles what it holds.
   */
  lemma Moves(w: World, s: Step)
    requires w.b.Valid() && Enabled(w, s) && Of(s)
    ensures var a, l, l' := w.loops[s.i].link.address, w.loops[s.i], LoopAfter(w, s);
            Settled(Get(LogAfter(w, s), a)) + (l'.Hand() + BrokerAfter(w, s).Queue(a)) ==
            Settled(Get(w.log, a)) + (l.Hand() + w.b.Queue(a))
  {
    hide Settled, BrokerState.Valid, Fanned;
    if s.Write? {
      WriteMoves(w, s);
    } else if s.Take? {
      TakeMoves(w, s);
    } else if s.Return? {
      var l := w.loops[s.i];
      assert [] + ([l.phase.m] + w.b.Queue(l.link.address)) == [l.phase.m] + w.b.Queue(l.link.address);
    }
  }

  lemma TakeMoves(w: World, s: Step)
    requires Enabled(w, s) && s.Take?
    ensures var a, l, l' := w.loops[s.i].link.address, w.loops[s.i], LoopAfter(w, s);
            l'.Hand() + BrokerAfter(w, s).Queue(a) == l.Hand() + w.b.Queue(a)
    ensures LogAfter(w, s) == w.log
  {
    var q := w.b.Queue(w.loops[s.i].link.address);
    if q != [] { assert q == [q[0]] + q[1..]; }
  }

  lemma WriteMoves(w: World, s: Step)
    requires Enabled(w, s) && s.Write?
    ensures var a, l, l' := w.loops[s.i].link.address, w.loops[s.i], LoopAfter(w, s);
            Settled(Get(LogAfter(w, s), a)) + (l'.Hand() + BrokerAfter(w, s).Queue(a)) ==
            Settled(Get(w.log, a)) + (l.Hand() + w.b.Queue(a))
  {
    hide Settled;
    var l := w.loops[s.i];
    var q, log := w.b.Queue(l.link.address), Get(w.log, l.link.address);
    var o := if s.ok then Delivered(l.phase.m) else Dropped(l.phase.m);
    SettledAppend(log, o);
    assert Settled(log) + [o.m] + ([] + q) == Settled(log) + ([o.m] + q);
  }

  /** A loop's step leaves every other address alone. */
  lemma Elsewhere(w: World, s: Step, a: Address)
    requires Enabled(w, s) && Of(s) && w.loops[s.i].link.address != a
    ensures BrokerAfter(w, s).Queue(a) == w.b.Queue(a) && Get(LogAfter(w, s), a) == Get(w.log, a)
  {
  }

  lemma ConservedLoop(w: World, s: Step, a: Address)
    requires w.b.Valid() && Enabled(w, s) && Of(s)
    requires Conserved(w, a)
    ensures Conserved(Next(w, s), a)
  {
    assert s.i < |w.loops|;
    hide Hands, Settled, BrokerState.Valid, Enabled, LoopAfter, BrokerAfter, LogAfter, Loop.Hand;
    var l, l' := w.loops[s.i], LoopAfter(w, s);
    SameAddress(w, s);
    if l.link.address == a {
      HandsUpdate(w.loops, s.i, l', a);
      Moves(w, s);
      Parts(Settled(Get(LogAfter(w, s), a)), l'.Hand(), BrokerAfter(w, s).Queue(a));
      Parts(Settled(Get(w.log, a)), l.Hand(), w.b.Queue(a));
      Balance(multiset(Get(w.sent, a)), multiset(w.b.Queue(a)), multiset(BrokerAfter(w, s).Queue(a)),
              multiset(Settled(Get(w.log, a))), multiset(Settled(Get(LogAfter(w, s), a))),
              multiset(Hands(w.loops, a)), multiset(Hands(w.loops[s.i := l'], a)),
              multiset(l.Hand()), multiset(l'.Hand()));
    } else {
      SameHands(w.loops, s.i, l', a);
      Elsewhere(w, s, a);
    }
  }

  lemma SameAddress(w: World, s: Step)
    requires Enabled(w, s) && Of(s)
    ensures LoopAfter(w, s).link.address == w.loops[s.i].link.address
  {
  }

  lemma Parts<T>(x: seq<T>, y: seq<T>, z: seq<T>)
    ensures multiset(x + (y + z)) == multiset(x) + multiset(y) + multiset(z)
  {
  }

  lemma HandsAttach(loops: seq<Loop>, l: Loop, a: Address)
    requires l.Hand() == []
    ensures Hands(loops + [l], a) == Hands(loops, a)
  {
    assert (loops + [l])[..|loops|] == loops;
  }

  lemma ConservedOther(w: World, s: Step, a: Address)
    requires Enabled(w, s) && !Of(s)
    requires Conserved(w, a)
    ensures Conserved(Next(w, s), a)
  {
    hide Hands, Settled, Enabled, Fanned, Targets;
    match s
    case Subscribe(_) =>
    case Attach(x) => HandsAttach(w.loops, NewLoop(x), a);
    case Publish(x, m, after) =>
      Published(w, x, m, after, a);
      hide Next;
      Grow(Get(w.sent, a), w.b.Queue(a), multiset(Hands(w.loops, a)), multiset(Settled(Get(w.log, a))),
           if a in Targets(w.b, x) then [m] else []);
  }

  lemma Grow(sent: seq<bytes>, q: seq<bytes>, h: multiset<bytes>, s: multiset<bytes>, more: seq<bytes>)
    requires multiset(sent) == multiset(q) + h + s
    ensures multiset(sent + more) == multiset(q + more) + h + s
  {
  }

  /** A publish adds the same at the end of the queue as to the record of what was sent. */
  lemma Published(w: World, x: Address, m: bytes, after: BrokerState, a: Address)
    requires Enabled(w, Publish(x, m, after))
    ensures var more := if a in Targets(w.b, x) then [m] else [];
            && Get(Next(w, Publish(x, m, after)).sent, a) == Get(w.sent, a) + more
            && after.Queue(a) == w.b.Queue(a) + more
    ensures var w' := Next(w, Publish(x, m, after)); w'.b == after && w'.loops == w.loops && w'.log == w.log
  {
    hide Targets, Woken;
    assert w.b.Queue(a) + [] == w.b.Queue(a) && Get(w.sent, a) + [] == Get(w.sent, a);
  }

  lemma LoopStep(w: World, s: Step)
    requires Inv(w) && Enabled(w, s) && Of(s)
    ensures Wakeable(Next(w, s).b, LoopAfter(w, s)) && CreditKept(LoopAfter(w, s))
  {
    var l := w.loops[s.i];
    hide BrokerState.Valid, Conserved;
    assert Wakeable(w.b, l) && CreditKept(l);
    if s.Wait? {
      WaitedKeeps(w.b, l.link.address);
    } else {
      WakeableStep(w, s, l);
    }
  }

  lemma InvStep(w: World, s: Step)
    requires Inv(w) && Enabled(w, s)
    ensures Inv(Next(w, s))
  {
    hide BrokerState.Valid, Conserved, Wakeable, CreditKept;
    var w' := Next(w, s);
    BrokerStep(w, s);
    forall a ensures Conserved(w', a) {
      if Of(s) { ConservedLoop(w, s, a); } else { ConservedOther(w, s, a); }
    }
    forall i | 0 <= i < |w'.loops| ensures Wakeable(w'.b, w'.loops[i]) && CreditKept(w'.loops[i]) {
      if i == |w.loops| {
        NewLoopKept(w'.b, s.a);
      } else {
        WakeableStep(w, s, w.loops[i]);
        if Of(s) && s.i == i { LoopStep(w, s); }
      }
    }
  }

  lemma NewLoopKept(b: BrokerState, a: Address)
    ensures Wakeable(b, NewLoop(a)) && CreditKept(NewLoop(a))
  {
  }

  /** Safety over whole runs: whatever the clients do and however the loops interleave, Inv holds. */
  lemma {:induction false} Safety(steps: seq<Step>)
    requires CanRun(INIT, steps)
    ensures Inv(After(INIT, steps))
    decreases |steps|
  {
    if steps == [] {
      assert forall a :: Conserved(INIT, a);
    } else {
      hide Inv, Next, Enabled;
      Safety(steps[..|steps| - 1]);
      InvStep(After(INIT, steps[..|steps| - 1]), steps[|steps| - 1]);
    }
  }

  /** No lost wakeup: while a message is queued, every loop asleep on that queue can wake up and take it. */
  lemma NoLostWakeup(steps: seq<Step>, i: nat)
    requires CanRun(INIT, steps)
    requires var w := After(INIT, steps);
             i < |w.loops| && w.loops[i].phase.Sleeping? && w.b.Queue(w.loops[i].link.address) != []
    ensures Enabled(After(INIT, steps), Wake(i))
  {
    Safety(steps);
    var w := After(INIT, steps);
    assert Wakeable(w.b, w.loops[i]);
  }

  /** A loop never writes more transfers than the credit its client granted. */
  lemma NeverBeyondCredit(steps: seq<Step>, i: nat)
    requires CanRun(INIT, steps) && i < |After(INIT, steps).loops|
    ensures After(INIT, steps).loops[i].written <= After(INIT, steps).loops[i].granted
  {
    hide Conserved, After, Wakeable;
    Safety(steps);
    assert CreditKept(After(INIT, steps).loops[i]);
  }

  // ---- After a drain ----

  predicate Grants(s: Step, i: nat) {
    s.Grant? && s.i == i
  }

  /** A transfer whose credit is taken and which is not yet written. */
  function Owed(l: Loop): nat {
    if l.phase.Sending? then 1 else 0
  }

  /**
   Without a new grant a drained link writes at most one transfer more, whatever else happens: the one
   whose credit its loop had taken when the drain came, and none when it had taken none.
   */
  lemma {:induction false} DrainHolds(w: World, steps: seq<Step>, i: nat)
    requires CanRun(w, steps) && i < |w.loops| && w.loops[i].link.credit == 0
    requires forall k | 0 <= k < |steps| :: !Grants(steps[k], i)
    ensures var w' := After(w, steps);
            && i < |w'.loops| && w'.loops[i].link.credit == 0
            && w'.loops[i].written + Owed(w'.loops[i]) == w.loops[i].written + Owed(w.loops[i])
    decreases |steps|
  {
    if steps != [] {
      hide Next, Enabled;
      var k := |steps| - 1;
      DrainHolds(w, steps[..k], i);
      assert !Grants(steps[k], i);
      DrainStep(After(w, steps[..k]), steps[k], i);
    }
  }

  lemma DrainStep(w: World, s: Step, i: nat)
    requires Enabled(w, s) && i < |w.loops| && !Grants(s, i) && w.loops[i].link.credit == 0
    ensures var w' := Next(w, s);
            && i < |w'.loops| && w'.loops[i].link.credit == 0
            && w'.loops[i].written + Owed(w'.loops[i]) == w.loops[i].written + Owed(w.loops[i])
  {
    hide Fanned, BrokerAfter, LogAfter;
  }

  lemma RunMore(steps: seq<Step>, s: Step, w: World)
    requires CanRun(INIT, steps) && Enabled(After(INIT, steps), s) && Next(After(INIT, steps), s) == w
    ensures CanRun(INIT, steps + [s]) && After(INIT, steps + [s]) == w
  {
    hide Enabled, Next;
    assert (steps + [s])[..|steps|] == steps;
  }

  /** A broker with one message in one queue. */
  function OneQueued(a: Address, m: bytes): BrokerState {
    EMPTY.(queues := map[a := [m]])
  }

  lemma FirstPublish(l: Loop, a: Address, m: bytes)
    ensures var w, s := INIT.(loops := [l]), Publish(a, m, OneQueued(a, m));
            Enabled(w, s) && Next(w, s) == Lone(OneQueued(a, m), l, a, m)
  {
    assert [] + [m] == [m] && Targets(EMPTY, a) == {a} && Woken(EMPTY, {a}) == {};
    var w := INIT.(loops := [l]);
    assert Next(w, Publish(a, m, OneQueued(a, m))).sent == map[a := [m]];
  }

  /** A link that attaches and is granted credit by one flow or two. */
  lemma GrantedRun(a: Address, grants: seq<uint32>) returns (steps: seq<Step>, l: Loop)
    requires |grants| == 1 || |grants| == 2
    ensures CanRun(INIT, steps) && After(INIT, steps) == INIT.(loops := [l])
    ensures l == if |grants| == 1 then NewLoop(a).(link := Credited(Fresh(a, false, false), grants[0]), granted := grants[0])
                 else NewLoop(a).(link := Credited(Credited(Fresh(a, false, false), grants[0]), grants[1]),
                                  granted := grants[0] as int + grants[1])
  {
    hide CanRun, After;
    assert CanRun(INIT, []) && After(INIT, []) == INIT by { EmptyRun(); }
    RunMore([], Attach(a), INIT.(loops := [NewLoop(a)]));
    l := NewLoop(a).(link := Credited(Fresh(a, false, false), grants[0]), granted := grants[0]);
    steps := [] + [Attach(a)] + [Grant(0, 0, grants[0])];
    RunMore([] + [Attach(a)], Grant(0, 0, grants[0]), INIT.(loops := [l]));
    if |grants| == 2 {
      var l' := l.(link := Credited(l.link, grants[1]), granted := l.granted + grants[1]);
      RunMore(steps, Grant(0, 0, grants[1]), INIT.(loops := [l']));
      steps, l := steps + [Grant(0, 0, grants[1])], l';
    }
  }

  lemma EmptyRun()
    ensures CanRun(INIT, []) && After(INIT, []) == INIT
  {
  }

  /**
   The drain can come between taking credit and writing: a run that ends in a drain of a link with
   nothing written, after which the link still writes one transfer.
   */
  lemma DrainRace(a: Address, m: bytes) returns (steps: seq<Step>)
    ensures CanRun(INIT, steps + [Drain(0)]) && |After(INIT, steps + [Drain(0)]).loops| == 1
    ensures var l := After(INIT, steps + [Drain(0)]).loops[0]; l.link.credit == 0 && l.written == 0
    ensures CanRun(INIT, steps + [Drain(0)] + [Write(0, true)])
    ensures var w := After(INIT, steps + [Drain(0)] + [Write(0, true)]); |w.loops| == 1 && w.loops[0].written == 1
  {
    hide CanRun, After, Enabled, Next;
    var l: Loop;
    steps, l := GrantedRun(a, [1]);
    FirstPublish(l, a, m);
    RunMore(steps, Publish(a, m, OneQueued(a, m)), Lone(OneQueued(a, m), l, a, m));
    steps := steps + [Publish(a, m, OneQueued(a, m))];
    var b := Dequeued(OneQueued(a, m), a);
    LoneTakes(l, a, m);
    RunMore(steps, Take(0), Lone(b, l.(phase := Holding(m)), a, m));
    steps := steps + [Take(0)];
    var l' := l.(link := Taken(l.link), count := 1, phase := Sending(m));
    RunMore(steps, Credit(0), Lone(b, l', a, m));
    steps := steps + [Credit(0)];
    LoneDrained(b, l', a, m);
    var drained := Next(Lone(b, l', a, m), Drain(0));
    RunMore(steps, Drain(0), drained);
    RunMore(steps + [Drain(0)], Write(0, true), Next(drained, Write(0, true)));
  }

  /** One loop alone, on an address where m was the only message sent. */
  function Lone(b: BrokerState, l: Loop, a: Address, m: bytes): World {
    World(b, [l], map[a := [m]], map[])
  }

  lemma LoneTakes(l: Loop, a: Address, m: bytes)
    requires l.link.address == a && l.phase.Idle? && l.count == 0 && !l.link.closed && l.link.credit == 1
    ensures var w, b, l' := Lone(OneQueued(a, m), l, a, m), Dequeued(OneQueued(a, m), a), l.(phase := Holding(m));
            && Enabled(w, Take(0)) && Next(w, Take(0)) == Lone(b, l', a, m)
            && Enabled(Lone(b, l', a, m), Credit(0))
            && Next(Lone(b, l', a, m), Credit(0)) ==
               Lone(b, l.(link := Taken(l.link), count := 1, phase := Sending(m)), a, m)
  {
  }

  lemma LoneDrained(b: BrokerState, l: Loop, a: Address, m: bytes)
    requires l.phase.Sending? && l.written == 0
    ensures Enabled(Lone(b, l, a, m), Drain(0))
    ensures var w := Next(Lone(b, l, a, m), Drain(0));
            && |w.loops| == 1 && w.loops[0].link.credit == 0 && w.loops[0].written == 0
            && Enabled(w, Write(0, true))
            && |Next(w, Write(0, true)).loops| == 1 && Next(w, Write(0, true)).loops[0].written == 1
  {
  }

  // ---- Flows add credit ----

  /**
   What a flow leaves a link with is what section 2.6.7 of AMQP 1.0 prescribes exactly when the link
   held one credit for every transfer the client had not yet counted: none, when the flow is up to date.
   */
  lemma GrantIsStandard(steps: seq<Step>, i: nat, deliveryCount: uint32, credit: uint32)
    requires CanRun(INIT, steps) && i < |After(INIT, steps).loops|
    ensures var (w, s) := (After(INIT, steps), Grant(i, deliveryCount, credit));
            var l := w.loops[i];
            && Enabled(w, s)
            && (Next(w, s).loops[i].link.credit == StandardCredit(l.link, deliveryCount, credit) <==>
                  l.link.credit == ToUint32(deliveryCount as int - l.count))
            && (deliveryCount == ToUint32(l.count) ==>
                  (Next(w, s).loops[i].link.credit == StandardCredit(l.link, deliveryCount, credit) <==>
                     l.link.credit == 0))
  {
    hide CanRun, After, Conserved, Wakeable, Credited, StandardCredit;
    Safety(steps);
    var l := After(INIT, steps).loops[i];
    assert CreditKept(l);
    CreditIsStandard(l.link, deliveryCount, credit);
    SameDifference(deliveryCount, l.count);
  }

  lemma SameDifference(a: uint32, n: nat)
    ensures ToUint32(a as int - ToUint32(n)) == ToUint32(a as int - n)
  {
  }

  /** A client that repeats a flow of ten credits, having received nothing, leaves the server with twenty. */
  lemma RepeatedFlowDoubles(a: Address) returns (steps: seq<Step>)
    ensures CanRun(INIT, steps) && |After(INIT, steps).loops| == 1
    ensures var l := After(INIT, steps).loops[0].link; l.credit == 20 && StandardCredit(l, 0, 10) == 10
  {
    hide CanRun, After;
    var l: Loop;
    steps, l := GrantedRun(a, [10, 10]);
  }

  // ---- Dropped messages ----

  predicate SomeDropped(log: seq<Outcome>) {
    exists i | 0 <= i < |log| :: log[i].Dropped?
  }

  ghost predicate HasDropped(w: World) {
    exists a | a in w.log :: SomeDropped(w.log[a])
  }

  predicate Fails(s: Step) {
    s.Write? && !s.ok
  }

  lemma DroppedAppend(log: seq<Outcome>, o: Outcome)
    ensures SomeDropped(log + [o]) <==> SomeDropped(log) || o.Dropped?
  {
    if SomeDropped(log) {
      var i :| 0 <= i < |log| && log[i].Dropped?;
      assert (log + [o])[i].Dropped?;
    }
    assert (log + [o])[|log|] == o;
  }

  lemma DroppedStep(w: World, s: Step)
    requires Enabled(w, s)
    ensures HasDropped(Next(w, s)) <==> HasDropped(w) || Fails(s)
  {
    hide Fanned, BrokerAfter, LoopAfter, SomeDropped;
    var w' := Next(w, s);
    if s.Write? {
      var l := w.loops[s.i];
      var a, o := l.link.address, if s.ok then Delivered(l.phase.m) else Dropped(l.phase.m);
      DroppedAppend(Get(w.log, a), o);
      assert !SomeDropped([]) by { NoneDropped(); }
      assert SomeDropped(w'.log[a]) <==> SomeDropped(Get(w.log, a)) || Fails(s);
      assert forall x | x != a :: (x in w'.log <==> x in w.log) && (x in w.log ==> w'.log[x] == w.log[x]);
    } else {
      assert w'.log == w.log;
    }
  }

  lemma NoneDropped()
    ensures !SomeDropped([])
  {
  }

  /** A message is dropped exactly when some transfer could not be written. */
  lemma {:induction false} DroppedIffWriteFails(steps: seq<Step>)
    requires CanRun(INIT, steps)
    ensures HasDropped(After(INIT, steps)) <==> exists k :: 0 <= k < |steps| && Fails(steps[k])
    decreases |steps|
  {
    hide HasDropped, Next, Enabled;
    if steps == [] {
      assert !HasDropped(INIT) by { NothingDropped(); }
    } else {
      var k := |steps| - 1;
      DroppedIffWriteFails(steps[..k]);
      DroppedStep(After(INIT, steps[..k]), steps[k]);
      if exists j :: 0 <= j < k && Fails(steps[..k][j]) {
        var j :| 0 <= j < k && Fails(steps[..k][j]);
        assert Fails(steps[j]);
      }
      if exists j :: 0 <= j < |steps| && Fails(steps[j]) {
        var j :| 0 <= j < |steps| && Fails(steps[j]);
        assert j == k || Fails(steps[..k][j]);
      }
    }
  }

  lemma NothingDropped()
    ensures !HasDropped(INIT)
  {
  }

  function Deliveries(ms: seq<bytes>): (r: seq<Outcome>)
    ensures |r| == |ms| && forall i | 0 <= i < |ms| :: r[i] == Delivered(ms[i])
  {
    seq(|ms|, i requires 0 <= i < |ms| => Delivered(ms[i]))
  }

  /** While every write succeeds, each copy enqueued at a is queued, in one loop's hand, or delivered. */
  lemma ConservedUnlessWriteFails(steps: seq<Step>, a: Address) returns (delivered: seq<bytes>)
    requires CanRun(INIT, steps) && forall k | 0 <= k < |steps| :: !Fails(steps[k])
    ensures var w := After(INIT, steps);
            && Get(w.log, a) == Deliveries(delivered)
            && multiset(Get(w.sent, a)) ==
               multiset(w.b.Queue(a)) + multiset(Hands(w.loops, a)) + multiset(delivered)
  {
    hide After, CanRun, Hands, Wakeable, CreditKept, Fails;
    Safety(steps);
    DroppedIffWriteFails(steps);
    var w := After(INIT, steps);
    delivered := Settled(Get(w.log, a));
    assert Conserved(w, a);
    forall i | 0 <= i < |Get(w.log, a)| ensures Get(w.log, a)[i] == Delivered(delivered[i]) {
      assert !Get(w.log, a)[i].Dropped?;
    }
  }

  // ---- Order, with one loop at a time ----

  /** Of the loops ever started on a, at most one has not finished. */
  ghost predicate OneLive(w: World, a: Address) {
    forall i, j | 0 <= i < j < |w.loops| && w.loops[i].link.address == w.loops[j].link.address == a ::
      w.loops[i].phase.Finished? || w.loops[j].phase.Finished?
  }

  ghost predicate InOrder(w: World, a: Address) {
    Get(w.sent, a) == Settled(Get(w.log, a)) + (Hands(w.loops, a) + w.b.Queue(a))
  }

  lemma {:induction false} OneHand(loops: seq<Loop>, i: nat, a: Address)
    requires i < |loops| && loops[i].link.address == a
    requires forall j | 0 <= j < |loops| && j != i && loops[j].link.address == a :: loops[j].phase.Finished?
    ensures Hands(loops, a) == loops[i].Hand()
  {
    var k := |loops| - 1;
    if i < k {
      OneHand(loops[..k], i, a);
    } else {
      NoHand(loops[..k], a);
    }
  }

  lemma {:induction false} NoHand(loops: seq<Loop>, a: Address)
    requires forall j | 0 <= j < |loops| && loops[j].link.address == a :: loops[j].phase.Finished?
    ensures Hands(loops, a) == []
  {
    if loops != [] { NoHand(loops[..|loops| - 1], a); }
  }

  lemma InOrderLoop(w: World, s: Step, a: Address)
    requires w.b.Valid() && Enabled(w, s) && Of(s)
    requires InOrder(w, a) && OneLive(w, a)
    ensures InOrder(Next(w, s), a)
  {
    assert s.i < |w.loops|;
    hide Hands, Settled, BrokerState.Valid, LoopAfter, BrokerAfter, LogAfter, Enabled, Loop.Hand;
    var l, l' := w.loops[s.i], LoopAfter(w, s);
    SameAddress(w, s);
    if l.link.address != a {
      SameHands(w.loops, s.i, l', a);
      Elsewhere(w, s, a);
    } else if l.phase.Finished? {
      StaysFinished(w, s);
      SameHands(w.loops, s.i, l', a);
    } else {
      OneHand(w.loops, s.i, a);
      OneHand(w.loops[s.i := l'], s.i, a);
      Moves(w, s);
    }
  }

  lemma StaysFinished(w: World, s: Step)
    requires Enabled(w, s) && Of(s) && w.loops[s.i].phase.Finished?
    ensures LoopAfter(w, s).Hand() == w.loops[s.i].Hand()
    ensures BrokerAfter(w, s) == w.b && LogAfter(w, s) == w.log
  {
  }

  lemma InOrderOther(w: World, s: Step, a: Address)
    requires Enabled(w, s) && !Of(s)
    requires InOrder(w, a)
    ensures InOrder(Next(w, s), a)
  {
    hide Hands, Settled;
    match s
    case Subscribe(_) =>
    case Attach(x) => HandsAttach(w.loops, NewLoop(x), a);
    case Publish(x, m, after) =>
      Published(w, x, m, after, a);
      var more := if a in Targets(w.b, x) then [m] else [];
      Regroup(Settled(Get(w.log, a)), Hands(w.loops, a), w.b.Queue(a), more);
  }

  lemma Regroup<T>(x: seq<T>, y: seq<T>, z: seq<T>, more: seq<T>)
    ensures x + (y + z) + more == x + (y + (z + more))
  {
  }

  /**
   First in, first out: while each loop on a starts only after the earlier ones have
   finished, what was settled, then what is in hand, then the queue is exactly what was sent.
   */
  lemma {:induction false} FirstInFirstOut(steps: seq<Step>, a: Address)
    requires CanRun(INIT, steps)
    requires forall k | 0 <= k <= |steps| :: CanRun(INIT, steps[..k]) && OneLive(After(INIT, steps[..k]), a)
    ensures InOrder(After(INIT, steps), a)
    decreases |steps|
  {
    if steps != [] {
      hide InOrder, OneLive, Next, Enabled;
      var k := |steps| - 1;
      var before := steps[..k];
      forall j | 0 <= j <= k ensures before[..j] == steps[..j] {}
      FirstInFirstOut(before, a);
      Safety(before);
      assert OneLive(After(INIT, steps[..k]), a);
      var w, s := After(INIT, before), steps[k];
      if Of(s) { InOrderLoop(w, s, a); } else { InOrderOther(w, s, a); }
    }
  }
}
