/** What each call on a topic leaves behind, event by event, and what a run has published. */
module EventGridLaws {
  import opened EventGrid
  import opened EventGridRuns

  // ---- Publishing ----

  /** The events of a batch as a subscription gets them, from backlog position n on: never received, under no lock. */
  function Arriving(n: nat, events: seq<string>): (r: seq<Delivery>)
    ensures |r| == |events| && forall i | 0 <= i < |events| :: r[i] == Delivery(n + i, events[i], 0, ZERO_TIME)
  {
    seq(|events|, i requires 0 <= i < |events| => Delivery(n + i, events[i], 0, ZERO_TIME))
  }

  /** A publish puts all its events, in order, at the end of the backlog and of every subscription's queue. */
  lemma {:induction false} PublishStores(t: Topic, events: seq<string>)
    ensures var t' := Publish(t, events);
            && t'.backlog == t.backlog + events && t'.subs.Keys == t.subs.Keys
            && forall name | name in t.subs ::
                 && t'.subs[name].available == t.subs[name].available + Arriving(|t.backlog|, events)
                 && t'.subs[name].locked == t.subs[name].locked
    decreases |events|
  {
    if events == [] {
      assert t.backlog + [] == t.backlog;
      forall name | name in t.subs ensures t.subs[name].available + Arriving(|t.backlog|, []) == t.subs[name].available {}
    } else {
      var next := PublishOne(t, events[0]);
      PublishStores(next, events[1..]);
      assert t.backlog + [events[0]] + events[1..] == t.backlog + events;
      forall name | name in t.subs
        ensures next.subs[name].available + Arriving(|next.backlog|, events[1..])
             == t.subs[name].available + Arriving(|t.backlog|, events)
      {
        ArrivingCons(|t.backlog|, events);
        AppendCons(t.subs[name].available, Delivery(|t.backlog|, events[0], 0, ZERO_TIME),
                   Arriving(|t.backlog| + 1, events[1..]));
      }
    }
  }

  lemma ArrivingCons(n: nat, events: seq<string>)
    requires events != []
    ensures Arriving(n, events) == [Delivery(n, events[0], 0, ZERO_TIME)] + Arriving(n + 1, events[1..])
  {
  }

  lemma AppendCons<T>(s: seq<T>, x: T, rest: seq<T>)
    ensures s + [x] + rest == s + ([x] + rest)
  {
  }

  /** Everything a run has published, in order. */
  function AllPublished(steps: seq<Step>): seq<string> {
    if steps == [] then []
    else (if steps[0].Published? then steps[0].events else []) + AllPublished(steps[1..])
  }

  /** The backlog of a topic is what was published to it: nothing else, nothing missing, in order. */
  lemma {:induction false} BacklogIsPublished(w: World, steps: seq<Step>, w': World)
    requires IsRun(w, steps, w')
    ensures w'.topic.backlog == w.topic.backlog + AllPublished(steps)
    decreases |steps|
  {
    hide Enabled, Next;
    if steps == [] {
      assert w.topic.backlog + [] == w.topic.backlog;
    } else {
      var s := steps[0];
      BacklogStep(w, s);
      BacklogIsPublished(Next(w, s), steps[1..], w');
      var now := if s.Published? then s.events else [];
      assert w.topic.backlog + now + AllPublished(steps[1..]) == w.topic.backlog + (now + AllPublished(steps[1..]));
    }
  }

  lemma BacklogStep(w: World, s: Step)
    ensures Next(w, s).topic.backlog == w.topic.backlog + if s.Published? then s.events else []
  {
    hide Publish, Hand, Sweep, Resolve, Renew, Seeded;
    if s.Published? {
      PublishStores(w.topic, s.events);
    } else {
      assert w.topic.backlog + [] == w.topic.backlog;
    }
  }

  // ---- Receiving ----

  function Least(a: nat, b: nat): nat { if a <= b then a else b }

  /**
   A receive hands out as many events as were asked for, at least one, or all there are; each is locked for
   the duration.
   */
  lemma ReceiveHandsOut(w: World, name: string, max: int, order: seq<Token>, tokens: seq<Token>, now: int)
    requires Enabled(w, Receives(name, max, order, tokens, now))
    ensures var swept := Sweep(WithSub(w.topic, name).subs[name], order);
            var (sub, received) := Hand(swept, tokens, now + w.duration);
            && |received| == Least(if max < 1 then 1 else max, |swept.available|)
            && Next(w, Receives(name, max, order, tokens, now)).topic.subs[name] == sub
            && forall k | 0 <= k < |received| ::
                 && tokens[k] in sub.locked && sub.locked[tokens[k]].deadline == now + w.duration
                 && sub.locked[tokens[k]].event == swept.available[k].event
                 && sub.locked[tokens[k]].count == swept.available[k].count + 1 == received[k].count
  {
    var swept := Sweep(WithSub(w.topic, name).subs[name], order);
    ReceiveLeaves(w, name, max, order, tokens, now);
    hide Enabled, Next, WithSub, Seeded, Sweep, Hand, IsSweep;
    HandLocks(swept, tokens, now + w.duration);
  }

  lemma ReceiveLeaves(w: World, name: string, max: int, order: seq<Token>, tokens: seq<Token>, now: int)
    requires Enabled(w, Receives(name, max, order, tokens, now))
    ensures var topic := Next(w, Receives(name, max, order, tokens, now)).topic;
            && name in topic.subs
            && topic.subs[name] == Hand(Sweep(WithSub(w.topic, name).subs[name], order), tokens, now + w.duration).0
    ensures forall i, j | 0 <= i < j < |tokens| :: tokens[i] != tokens[j]
    ensures |tokens| == if max < 1 then 1 else max
  {
    hide Seeded, Sweep, Hand, IsSweep;
  }

  lemma {:induction false} HandLocks(sub: Subscription, tokens: seq<Token>, deadline: int)
    requires forall i, j | 0 <= i < j < |tokens| :: tokens[i] != tokens[j]
    ensures var (after, received) := Hand(sub, tokens, deadline);
            && |received| == Least(|tokens|, |sub.available|)
            && (forall k | 0 <= k < |received| :: received[k].count == sub.available[k].count + 1)
            && (forall k | 0 <= k < |received| ::
                 tokens[k] in after.locked &&
                 after.locked[tokens[k]] == sub.available[k].(count := sub.available[k].count + 1, deadline := deadline))
            && forall tok | tok in sub.locked && tok !in tokens ::
                 tok in after.locked && after.locked[tok] == sub.locked[tok]
    decreases |tokens|
  {
    if tokens != [] && sub.available != [] {
      var next := HandOne(sub, tokens[0], deadline);
      HandLocks(next, tokens[1..], deadline);
      var (after, received) := Hand(sub, tokens, deadline);
      assert tokens[0] !in tokens[1..];
      forall k | 0 <= k < |received|
        ensures tokens[k] in after.locked && received[k].count == sub.available[k].count + 1
        ensures after.locked[tokens[k]] == sub.available[k].(count := sub.available[k].count + 1, deadline := deadline)
      {
        if k > 0 { assert tokens[1..][k - 1] == tokens[k] && next.available[k - 1] == sub.available[k]; }
      }
    }
  }

  /** No record of a run shows a lock of another duration. */
  predicate LockedFor(log: Log, duration: int) {
    forall a | a in log && a.Handed? :: a.deadline == a.at + duration
  }

  lemma {:induction false} LocksLast(w: World, steps: seq<Step>, w': World, name: string)
    requires IsRun(w, steps, w') && LockedFor(LogOf(w, name), w.duration)
    ensures w'.duration == w.duration && LockedFor(LogOf(w', name), w.duration)
    decreases |steps|
  {
    hide Enabled, Next, LockedFor;
    if steps != [] {
      LocksLastStep(w, steps[0], name);
      LocksLast(Next(w, steps[0]), steps[1..], w', name);
    }
  }

  lemma LocksLastStep(w: World, s: Step, name: string)
    requires LockedFor(LogOf(w, name), w.duration)
    ensures Next(w, s).duration == w.duration && LockedFor(LogOf(Next(w, s), name), w.duration)
  {
    hide Publish, Hand, Sweep, Resolve, Renew, HandedActions, ResolvedActions, RenewedActions, WithSub;
    match s
    case Published(_) =>
    case Receives(n, _, order, tokens, now) =>
      var received := Hand(Sweep(WithSub(w.topic, n).subs[n], order), tokens, now + w.duration).1;
      HandedLast(received, now, now + w.duration);
    case Resolves(n, tokens, release) =>
      OthersNotHanded(Resolve(WithSub(w.topic, n).subs[n], tokens, release).1.succeeded, release, 0);
    case Renews(n, tokens, now) =>
      OthersNotHanded(Renew(WithSub(w.topic, n).subs[n], tokens, now + w.duration).1.succeeded, false, now + w.duration);
  }

  lemma {:induction false} HandedLast(received: seq<Received>, at: int, deadline: int)
    ensures forall a | a in HandedActions(received, at, deadline) :: a.Handed? && a.at == at && a.deadline == deadline
    decreases |received|
  {
    if received != [] { HandedLast(received[1..], at, deadline); }
  }

  lemma {:induction false} OthersNotHanded(tokens: seq<Token>, release: bool, deadline: int)
    ensures forall a | a in ResolvedActions(tokens, release) :: !a.Handed?
    ensures forall a | a in RenewedActions(tokens, deadline) :: !a.Handed?
    decreases |tokens|
  {
    if tokens != [] { OthersNotHanded(tokens[1..], release, deadline); }
  }

  // ---- Settling, releasing and renewing ----

  function HeldUnder(sub: Subscription, tokens: seq<Token>): (r: seq<Delivery>)
    requires forall tok | tok in tokens :: tok in sub.locked
    ensures |r| == |tokens| && forall i | 0 <= i < |tokens| :: r[i] == sub.locked[tokens[i]]
  {
    seq(|tokens|, i requires 0 <= i < |tokens| => sub.locked[tokens[i]])
  }

  /** A release puts exactly the events of the tokens that succeed at the end of the queue, in order; settling puts none. */
  lemma {:induction false} ResolveLeaves(sub: Subscription, tokens: seq<Token>, release: bool)
    ensures var (after, res) := Resolve(sub, tokens, release);
            && (forall tok | tok in res.succeeded :: tok in sub.locked)
            && after.locked == sub.locked - (set tok | tok in res.succeeded)
            && after.available == sub.available + if release then HeldUnder(sub, res.succeeded) else []
    decreases |tokens|
  {
    if tokens == [] {
      assert sub.locked - (set tok | tok in tokens) == sub.locked;
      assert sub.available + [] == sub.available;
    } else if tokens[0] in sub.locked {
      ResolveLeaves(ResolveOne(sub, tokens[0], release), tokens[1..], release);
      OneResolved(sub, tokens[0], Resolve(ResolveOne(sub, tokens[0], release), tokens[1..], release).1.succeeded, release);
    } else {
      ResolveLeaves(sub, tokens[1..], release);
    }
  }

  lemma OneResolved(sub: Subscription, tok: Token, rest: seq<Token>, release: bool)
    requires tok in sub.locked && forall t | t in rest :: t in ResolveOne(sub, tok, release).locked
    ensures var next, all := ResolveOne(sub, tok, release), [tok] + rest;
            && (forall t | t in all :: t in sub.locked)
            && next.locked - (set t | t in rest) == sub.locked - (set t | t in all)
            && next.available + (if release then HeldUnder(next, rest) else [])
            == sub.available + if release then HeldUnder(sub, all) else []
  {
    var next, all := ResolveOne(sub, tok, release), [tok] + rest;
    assert all[1..] == rest;
    WithoutFirst(sub.locked, all);
    if release {
      assert HeldUnder(sub, all) == [sub.locked[tok]] + HeldUnder(next, rest);
      AppendCons(sub.available, sub.locked[tok], HeldUnder(next, rest));
    }
  }

  /** A renewal moves the deadlines of the locks it names, and changes nothing else. */
  lemma {:induction false} RenewMoves(sub: Subscription, tokens: seq<Token>, deadline: int)
    ensures var after := Renew(sub, tokens, deadline).0;
            && after.available == sub.available && after.locked.Keys == sub.locked.Keys
            && forall tok | tok in sub.locked ::
                 after.locked[tok] == if tok in tokens then sub.locked[tok].(deadline := deadline) else sub.locked[tok]
    decreases |tokens|
  {
    if tokens != [] {
      assert tokens == [tokens[0]] + tokens[1..];
      RenewMoves(if tokens[0] in sub.locked then RenewOne(sub, tokens[0], deadline) else sub, tokens[1..], deadline);
    }
  }

  /** A renewed lock lasts the duration from the time of the renewal. */
  lemma RenewsExtend(w: World, name: string, tokens: seq<Token>, now: int, tok: Token)
    requires name in w.topic.subs && tok in w.topic.subs[name].locked && tok in tokens
    ensures var sub := Next(w, Renews(name, tokens, now)).topic.subs[name];
            tok in sub.locked && sub.locked[tok].deadline == now + w.duration
  {
    hide Renew;
    RenewMoves(w.topic.subs[name], tokens, now + w.duration);
  }

  // ---- The answer ----

  /** The tokens that are kept, in their order. */
  function Those(tokens: seq<Token>, keep: seq<bool>): seq<Token>
    requires |keep| == |tokens|
  {
    if tokens == [] then [] else (if keep[0] then [tokens[0]] else []) + Those(tokens[1..], keep[1..])
  }

  /** The answer to a call names each token once, in the order asked: those under lock the first time, and the others. */
  lemma {:induction false} ResolveAnswers(sub: Subscription, tokens: seq<Token>, release: bool,
                                          held: seq<bool>, other: seq<bool>)
    requires |held| == |other| == |tokens|
    requires forall i | 0 <= i < |tokens| :: held[i] <==> tokens[i] in sub.locked && tokens[i] !in tokens[..i]
    requires forall i | 0 <= i < |tokens| :: other[i] <==> !held[i]
    ensures var res := Resolve(sub, tokens, release).1;
            res.succeeded == Those(tokens, held) && res.failed == Those(tokens, other)
    decreases |tokens|
  {
    if tokens != [] {
      var next := if tokens[0] in sub.locked then ResolveOne(sub, tokens[0], release) else sub;
      forall i | 0 <= i < |tokens| - 1
        ensures held[1..][i] <==> tokens[1..][i] in next.locked && tokens[1..][i] !in tokens[1..][..i]
      {
        assert tokens[..i + 1] == [tokens[0]] + tokens[1..][..i];
        assert held[i + 1] <==> tokens[i + 1] in sub.locked && tokens[i + 1] !in tokens[..i + 1];
      }
      ResolveAnswers(next, tokens[1..], release, held[1..], other[1..]);
    }
  }

  /** So does a renewal's, with every token under lock. */
  lemma {:induction false} RenewAnswers(sub: Subscription, tokens: seq<Token>, deadline: int,
                                        held: seq<bool>, other: seq<bool>)
    requires |held| == |other| == |tokens|
    requires forall i | 0 <= i < |tokens| :: held[i] <==> tokens[i] in sub.locked
    requires forall i | 0 <= i < |tokens| :: other[i] <==> !held[i]
    ensures var res := Renew(sub, tokens, deadline).1;
            res.succeeded == Those(tokens, held) && res.failed == Those(tokens, other)
    decreases |tokens|
  {
    if tokens != [] {
      var next := if tokens[0] in sub.locked then RenewOne(sub, tokens[0], deadline) else sub;
      RenewAnswers(next, tokens[1..], deadline, held[1..], other[1..]);
    }
  }
}
