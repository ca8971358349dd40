/** The in-memory broker: queues, topic fan-out and the channels that wake waiting delivery loops. */
module Broker {
  import opened Bytes
  import opened Strings

  type Address = string
  type Chan = nat

  const SUBSCRIPTION_INFIX := "/subscriptions/"

  /** A broker's memory. `closed` and `next` are the runtime's channels: those closed, and the next one made. */
  datatype BrokerState = BrokerState(
    queues: map<Address, seq<bytes>>,
    topicSubs: map<Address, set<Address>>,
    waiters: map<Address, seq<Chan>>,
    closed: set<Chan>,
    next: Chan)
  {
    function Queue(a: Address): seq<bytes> {
      if a in queues then queues[a] else []
    }

    function Waiters(a: Address): seq<Chan> {
      if a in waiters then waiters[a] else []
    }

    /**
     Every registered channel is open, is registered once, and belongs to an empty queue:
     nobody waits while there is something to take, and no channel can be closed twice.
     */
    ghost predicate Valid() {
      && (forall a | a in waiters :: Queue(a) != [] ==> waiters[a] == [])
      && (forall a, i | a in waiters && 0 <= i < |waiters[a]| :: waiters[a][i] < next && waiters[a][i] !in closed)
      && (forall a, i, b, j | a in waiters && b in waiters && 0 <= i < |waiters[a]| && 0 <= j < |waiters[b]| ::
            waiters[a][i] == waiters[b][j] ==> a == b && i == j)
      && (forall c | c in closed :: c < next)
    }
  }

  const EMPTY := BrokerState(map[], map[], map[], {}, 0)

  // ---- What each operation does ----

  function Register(b: BrokerState, sub: Address): BrokerState {
    var idx := Index(Lower(sub), SUBSCRIPTION_INFIX);
    if idx < 0 then b
    else
      var topic := sub[..idx];
      b.(topicSubs := b.topicSubs[topic := Subscriptions(b, topic) + {sub}])
  }

  function Subscriptions(b: BrokerState, topic: Address): set<Address> {
    if topic in b.topicSubs then b.topicSubs[topic] else {}
  }

  /** Where a message sent to a goes: to every subscription of the topic a, or to the queue a when it has none. */
  function Targets(b: BrokerState, a: Address): set<Address> {
    if Subscriptions(b, a) != {} then Subscriptions(b, a) else {a}
  }

  /** Appends or prepends to one queue and wakes everybody waiting on it. */
  function PutQueue(b: BrokerState, a: Address, q: seq<bytes>): BrokerState {
    b.(queues := b.queues[a := q],
       waiters := b.waiters - {a},
       closed := b.closed + (set c | c in b.Waiters(a)))
  }

  function Enqueue(b: BrokerState, a: Address, m: bytes): BrokerState {
    PutQueue(b, a, b.Queue(a) + [m])
  }

  function Requeued(b: BrokerState, a: Address, m: bytes): BrokerState {
    PutQueue(b, a, [m] + b.Queue(a))
  }

  /** The channels registered at some address of ts. */
  function Woken(b: BrokerState, ts: set<Address>): set<Chan> {
    set a, c | a in ts && c in b.Waiters(a) :: c
  }

  /** One copy at every address of ts and no other change to any queue. */
  ghost predicate Fanned(b: BrokerState, ts: set<Address>, m: bytes, b': BrokerState) {
    && (forall a :: b'.Queue(a) == b.Queue(a) + if a in ts then [m] else [])
    && (forall a :: b'.Waiters(a) == if a in ts then [] else b.Waiters(a))
    && b'.closed == b.closed + Woken(b, ts)
    && b'.topicSubs == b.topicSubs && b'.next == b.next
  }

  function Dequeued(b: BrokerState, a: Address): BrokerState {
    if b.Queue(a) == [] then b else b.(queues := b.queues[a := b.Queue(a)[1..]])
  }

  /** A new channel: registered while the queue is empty, already closed otherwise. */
  function Waited(b: BrokerState, a: Address): BrokerState {
    if b.Queue(a) != [] then b.(closed := b.closed + {b.next}, next := b.next + 1)
    else b.(waiters := b.waiters[a := b.Waiters(a) + [b.next]], next := b.next + 1)
  }

  // ---- Where a subscription belongs ----

  /** sub is the address of a subscription of the topic t: t, the infix in any letter case, and a name. */
  predicate IsUnder(sub: Address, t: Address) {
    t <= sub && Index(Lower(sub), "/subscriptions/") == |t|
  }

  /** Registering an address adds it to the targets of the one topic it is under, and changes no others. */
  lemma RegisteredUnder(b: BrokerState, sub: Address)
    ensures forall t :: Subscriptions(Register(b, sub), t) == Subscriptions(b, t) + if IsUnder(sub, t) then {sub} else {}
    ensures forall t | IsUnder(sub, t) :: Targets(Register(b, sub), t) == Subscriptions(b, t) + {sub}
    ensures forall t | !IsUnder(sub, t) :: Targets(Register(b, sub), t) == Targets(b, t)
  {
    forall t ensures Subscriptions(Register(b, sub), t) == Subscriptions(b, t) + if IsUnder(sub, t) then {sub} else {} {
      if t <= sub {
        assert t == sub[..|t|];
      }
    }
  }

  /** An address is under what stands before the infix, in any letter case, where that first occurs. */
  lemma AnyCaseIsUnder(t: Address, infix: string, name: string)
    requires Lower(infix) == "/subscriptions/"
    requires forall j | 0 <= j < |t| :: !OccursAt(Lower(t + infix + name), "/subscriptions/", j)
    ensures IsUnder(t + infix + name, t)
  {
    var s := t + infix + name;
    assert Lower(s)[|t|..|t| + 15] == Lower(infix);
    assert OccursAt(Lower(s), "/subscriptions/", |t|);
  }

  // ---- What the operations keep ----

  lemma RegisterKeeps(b: BrokerState, sub: Address)
    requires b.Valid()
    ensures Register(b, sub).Valid()
  {
    var b' := Register(b, sub);
    assert b'.queues == b.queues && b'.waiters == b.waiters && b'.closed == b.closed && b'.next == b.next;
  }

  lemma PutQueueKeeps(b: BrokerState, a: Address, q: seq<bytes>)
    requires b.Valid()
    ensures PutQueue(b, a, q).Valid()
    ensures PutQueue(b, a, q).Queue(a) == q && PutQueue(b, a, q).Waiters(a) == []
    ensures forall x | x != a :: PutQueue(b, a, q).Queue(x) == b.Queue(x) && PutQueue(b, a, q).Waiters(x) == b.Waiters(x)
    ensures forall c | c in b.Waiters(a) :: c in PutQueue(b, a, q).closed && c !in b.closed
  {
  }

  lemma DequeuedKeeps(b: BrokerState, a: Address)
    requires b.Valid()
    ensures Dequeued(b, a).Valid()
    ensures forall x | x != a :: Dequeued(b, a).Queue(x) == b.Queue(x)
  {
  }

  lemma WaitedKeeps(b: BrokerState, a: Address)
    requires b.Valid()
    ensures Waited(b, a).Valid()
    ensures b.next !in b.closed
    ensures b.next in Waited(b, a).closed || b.next in Waited(b, a).Waiters(a)
    ensures forall x :: Waited(b, a).Queue(x) == b.Queue(x)
  {
    var b' := Waited(b, a);
    if b.Queue(a) == [] {
      WaitersGrow(b, a);
      assert b'.waiters[a][|b.Waiters(a)|] == b.next;
    }
  }

  lemma WaitersGrow(b: BrokerState, a: Address)
    requires b.Valid() && b.Queue(a) == []
    ensures b.(waiters := b.waiters[a := b.Waiters(a) + [b.next]], next := b.next + 1).Valid()
  {
    var b' := b.(waiters := b.waiters[a := b.Waiters(a) + [b.next]], next := b.next + 1);
    forall x, i | x in b'.waiters && 0 <= i < |b'.waiters[x]|
      ensures if x == a && i == |b.Waiters(a)| then b'.waiters[x][i] == b.next
              else x in b.waiters && i < |b.waiters[x]| && b'.waiters[x][i] == b.waiters[x][i] < b.next
    {}
    assert forall x :: b'.Queue(x) == b.Queue(x);
  }

  lemma FannedWaiters(b: BrokerState, ts: set<Address>, m: bytes, b': BrokerState, a: Address)
    requires Fanned(b, ts, m, b') && a in b'.waiters && b'.waiters[a] != []
    ensures a in b.waiters && b'.waiters[a] == b.waiters[a] && a !in ts && b'.Queue(a) == b.Queue(a)
  {
    assert b'.Waiters(a) == b'.waiters[a];
    assert b.Queue(a) + [] == b.Queue(a);
  }

  lemma FannedKeeps(b: BrokerState, ts: set<Address>, m: bytes, b': BrokerState)
    requires b.Valid() && Fanned(b, ts, m, b')
    ensures b'.Valid()
  {
    forall a | a in b'.waiters && b'.Queue(a) != [] ensures b'.waiters[a] == [] {
      if b'.waiters[a] != [] { FannedWaiters(b, ts, m, b', a); }
    }
    forall a, i | a in b'.waiters && 0 <= i < |b'.waiters[a]|
      ensures b'.waiters[a][i] < b'.next && b'.waiters[a][i] !in b'.closed
    {
      FannedWaiters(b, ts, m, b', a);
      OthersStayOpen(b, ts, a, i);
    }
    forall x, i, y, j | x in b'.waiters && y in b'.waiters && 0 <= i < |b'.waiters[x]| && 0 <= j < |b'.waiters[y]|
                        && b'.waiters[x][i] == b'.waiters[y][j]
      ensures x == y && i == j
    {
      FannedWaiters(b, ts, m, b', x);
      FannedWaiters(b, ts, m, b', y);
    }
    ClosedWereMade(b, ts);
  }

  lemma ClosedWereMade(b: BrokerState, ts: set<Address>)
    requires b.Valid()
    ensures forall c | c in b.closed + Woken(b, ts) :: c < b.next
  {
  }

  lemma OthersStayOpen(b: BrokerState, ts: set<Address>, a: Address, i: nat)
    requires b.Valid() && a !in ts && i < |b.Waiters(a)|
    ensures b.Waiters(a)[i] !in b.closed + Woken(b, ts)
  {
    forall x, j | x in ts && 0 <= j < |b.Waiters(x)| ensures b.Waiters(x)[j] != b.Waiters(a)[i] {}
  }

  /** What a send means for every address: one copy where the message is due, nothing anywhere else. */
  lemma FannedOnce(b: BrokerState, a: Address, m: bytes, b': BrokerState, x: Address)
    requires Fanned(b, Targets(b, a), m, b')
    ensures Subscriptions(b, a) != {} ==>
              multiset(b'.Queue(x))[m] - multiset(b.Queue(x))[m] == if x in Subscriptions(b, a) then 1 else 0
    ensures Subscriptions(b, a) == {} ==>
              multiset(b'.Queue(x))[m] - multiset(b.Queue(x))[m] == if x == a then 1 else 0
  {
    assert b.Queue(x) + [] == b.Queue(x);
  }

  // ---- The code ----

  class Broker {
    var queues: map<Address, seq<bytes>>
    var topicSubs: map<Address, set<Address>>
    var waiters: map<Address, seq<Chan>>
    var closed: set<Chan>
    var next: Chan

    function State(): BrokerState
      reads this
    {
      BrokerState(queues, topicSubs, waiters, closed, next)
    }

    ghost predicate Valid()
      reads this
    {
      State().Valid()
    }

    constructor ()
      ensures Valid() && State() == EMPTY
    {
      queues, topicSubs, waiters, closed, next := map[], map[], map[], {}, 0;
    }

    /** The runtime's close, which panics on a closed channel. */
    method Close(ch: Chan)
      requires ch !in closed
      modifies this`closed
      ensures closed == old(closed) + {ch}
    {
      closed := closed + {ch};
    }

    method RegisterSubscription(sub: Address)
      requires Valid()
      modifies this`topicSubs
      ensures Valid() && State() == Register(old(State()), sub)
    {
      RegisterKeeps(State(), sub);
      var idx := Index(Lower(sub), SUBSCRIPTION_INFIX);
      if idx < 0 {
        return;
      }
      var topic := sub[..idx];
      if topic !in topicSubs {
        topicSubs := topicSubs[topic := {}];
      }
      topicSubs := topicSubs[topic := topicSubs[topic] + {sub}];
    }

    /** Subscriptions are visited in whatever order the runtime ranges over them. */
    method Send(a: Address, m: bytes)
      requires Valid()
      modifies this
      ensures Valid() && Fanned(old(State()), Targets(old(State()), a), m, State())
    {
      ghost var b := State();
      hide BrokerState.Valid, Fanned, Enqueue;
      FannedNowhere(b, m);
      if a in topicSubs && topicSubs[a] != {} {
        var subs := topicSubs[a];
        ghost var done: set<Address> := {};
        while subs != {}
          invariant subs !! done && subs + done == b.topicSubs[a]
          invariant Valid() && Fanned(b, done, m, State())
          decreases subs
        {
          var sub :| sub in subs;
          ghost var mid := State();
          EnqueueLocked(sub, m);
          FannedOneMore(b, done, m, mid, sub);
          subs := subs - {sub};
          done := done + {sub};
        }
      } else {
        EnqueueLocked(a, m);
        FannedOneMore(b, {}, m, b, a);
        assert {} + {a} == {a};
      }
    }

    method EnqueueLocked(a: Address, m: bytes)
      requires Valid()
      modifies this
      ensures Valid() && State() == Enqueue(old(State()), a, m)
    {
      PutQueueKeeps(State(), a, State().Queue(a) + [m]);
      queues := queues[a := State().Queue(a) + [m]];
      NotifyLocked(a);
    }

    method Dequeue(a: Address) returns (found: bool, m: bytes)
      requires Valid()
      modifies this`queues
      ensures Valid() && State() == Dequeued(old(State()), a)
      ensures found <==> old(State()).Queue(a) != []
      ensures found ==> m == old(State()).Queue(a)[0]
    {
      DequeuedKeeps(State(), a);
      if a !in queues || |queues[a]| == 0 {
        return false, [];
      }
      found, m := true, queues[a][0];
      queues := queues[a := queues[a][1..]];
    }

    method Requeue(a: Address, m: bytes)
      requires Valid()
      modifies this
      ensures Valid() && State() == Requeued(old(State()), a, m)
    {
      PutQueueKeeps(State(), a, [m] + State().Queue(a));
      queues := queues[a := [m] + State().Queue(a)];
      NotifyLocked(a);
    }

    method WaitChan(a: Address) returns (ch: Chan)
      requires Valid()
      modifies this
      ensures Valid() && State() == Waited(old(State()), a) && ch == old(next)
    {
      hide BrokerState.Valid;
      WaitedKeeps(State(), a);
      ch := next;
      next := next + 1;
      if a in queues && |queues[a]| > 0 {
        Close(ch);
        return;
      }
      waiters := waiters[a := State().Waiters(a) + [ch]];
    }

    /** Closes each registered channel: every one is still open, so none of the closes panics. */
    method NotifyLocked(a: Address)
      requires forall i | 0 <= i < |State().Waiters(a)| :: State().Waiters(a)[i] !in closed
      requires forall i, j | 0 <= i < j < |State().Waiters(a)| :: State().Waiters(a)[i] != State().Waiters(a)[j]
      modifies this`closed, this`waiters
      ensures waiters == old(waiters) - {a}
      ensures closed == old(closed) + (set c | c in old(State()).Waiters(a))
    {
      var ws := State().Waiters(a);
      for i := 0 to |ws|
        invariant closed == old(closed) + (set c | c in ws[..i])
        invariant waiters == old(waiters)
      {
        assert forall j | 0 <= j < i :: ws[j] != ws[i];
        Close(ws[i]);
        assert ws[..i + 1] == ws[..i] + [ws[i]];
      }
      assert ws[..|ws|] == ws;
      waiters := waiters - {a};
    }
  }

  lemma FannedOneMore(b: BrokerState, done: set<Address>, m: bytes, mid: BrokerState, sub: Address)
    requires b.Valid() && mid.Valid() && Fanned(b, done, m, mid) && sub !in done
    ensures Fanned(b, done + {sub}, m, Enqueue(mid, sub, m))
  {
    hide BrokerState.Valid, Woken;
    var b' := Enqueue(mid, sub, m);
    PutQueueKeeps(mid, sub, mid.Queue(sub) + [m]);
    WokenOneMore(b, done, sub);
    assert mid.Waiters(sub) == b.Waiters(sub);
    forall a ensures b'.Queue(a) == b.Queue(a) + if a in done + {sub} then [m] else [] {
      assert mid.Queue(a) == b.Queue(a) + if a in done then [m] else [];
      assert b.Queue(a) + [] == b.Queue(a);
    }
    forall a ensures b'.Waiters(a) == if a in done + {sub} then [] else b.Waiters(a) {
      assert mid.Waiters(a) == if a in done then [] else b.Waiters(a);
    }
    assert b'.closed == mid.closed + (set c | c in mid.Waiters(sub));
  }

  lemma WokenOneMore(b: BrokerState, done: set<Address>, sub: Address)
    ensures Woken(b, done + {sub}) == Woken(b, done) + (set c | c in b.Waiters(sub))
  {
  }

  lemma FannedNowhere(b: BrokerState, m: bytes)
    ensures Fanned(b, {}, m, b)
  {
    assert forall a :: b.Queue(a) + [] == b.Queue(a);
  }
}
