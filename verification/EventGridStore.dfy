/**
 The Event Grid store as it runs. The clock and the random lock tokens are parameters;
 a topic and its subscriptions are values that each call replaces.
 */
module EventGridStore {
  import opened EventGrid
  import opened EventGridRuns

  function TopicOf(topics: map<string, Topic>, name: string): Topic {
    if name in topics then topics[name] else Topic([], map[])
  }

  class Store {
    var topics: map<string, Topic>
    const lockDuration: int

    constructor (lockDuration: int)
      ensures topics == map[] && this.lockDuration == lockDuration
    {
      topics := map[];
      this.lockDuration := lockDuration;
    }

    method GetTopic(name: string) returns (t: Topic)
      modifies this
      ensures t == TopicOf(old(topics), name) && topics == old(topics)[name := t]
    {
      if name !in topics {
        topics := topics[name := Topic([], map[])];
      }
      t := topics[name];
    }

    method Publish(topicName: string, events: seq<string>)
      modifies this
      ensures topics == old(topics)[topicName := EventGrid.Publish(TopicOf(old(topics), topicName), events)]
    {
      hide PublishOne;
      var t := GetTopic(topicName);
      ghost var before := topics;
      ghost var goal := EventGrid.Publish(t, events);
      assert events[0..] == events;
      for i := 0 to |events|
        invariant topics == before && EventGrid.Publish(t, events[i..]) == goal
      {
        assert events[i..][0] == events[i] && events[i..][1..] == events[i + 1..];
        t := PublishTo(t, events[i]);
      }
      topics := topics[topicName := t];
    }

    method Receive(topicName: string, subName: string, max: int, now: int, tokens: seq<Token>)
      returns (out: seq<Received>)
      requires |tokens| == EffectiveMax(max)
      requires Fresh(tokens, WithSub(TopicOf(topics, topicName), subName).subs[subName])
      modifies this
      ensures var t := WithSub(TopicOf(old(topics), topicName), subName);
              exists order :: IsSweep(t.subs[subName], now, order) &&
                var r := Hand(Sweep(t.subs[subName], order), tokens, now + lockDuration);
                topics == old(topics)[topicName := t.(subs := t.subs[subName := r.0])] && out == r.1
    {
      hide Sweep, Hand, IsSweep, Seeded;
      var t := GetTopic(topicName);
      t := GetSub(t, subName);
      var wanted := if max <= 0 then 1 else max;
      var sub := SweepExpired(t.subs[subName], now);
      sub, out := HandOut(sub, wanted, tokens, now + lockDuration);
      topics := topics[topicName := t.(subs := t.subs[subName := sub])];
    }

    method Acknowledge(topicName: string, subName: string, tokens: seq<Token>) returns (res: LockResult)
      modifies this
      ensures Resolved(old(topics), topicName, subName, tokens, false, res)
    {
      res := ResolveTokens(topicName, subName, tokens, false);
    }

    method Reject(topicName: string, subName: string, tokens: seq<Token>) returns (res: LockResult)
      modifies this
      ensures Resolved(old(topics), topicName, subName, tokens, false, res)
    {
      res := ResolveTokens(topicName, subName, tokens, false);
    }

    method Release(topicName: string, subName: string, tokens: seq<Token>) returns (res: LockResult)
      modifies this
      ensures Resolved(old(topics), topicName, subName, tokens, true, res)
    {
      res := ResolveTokens(topicName, subName, tokens, true);
    }

    predicate Resolved(before: map<string, Topic>, topicName: string, subName: string, tokens: seq<Token>,
                       release: bool, res: LockResult)
      reads this
    {
      var t := WithSub(TopicOf(before, topicName), subName);
      var r := Resolve(t.subs[subName], tokens, release);
      topics == before[topicName := t.(subs := t.subs[subName := r.0])] && res == r.1
    }

    method ResolveTokens(topicName: string, subName: string, tokens: seq<Token>, release: bool)
      returns (res: LockResult)
      modifies this
      ensures Resolved(old(topics), topicName, subName, tokens, release, res)
    {
      hide Resolve, Both;
      var t := GetTopic(topicName);
      ghost var before := topics;
      t := GetSub(t, subName);
      var sub := t.subs[subName];
      ghost var goal := Resolve(sub, tokens, release);
      res := LockResult([], []);
      ResolveEnds(sub, release, goal.1);
      assert tokens[0..] == tokens;
      for i := 0 to |tokens|
        invariant topics == before
        invariant goal.0 == Resolve(sub, tokens[i..], release).0
        invariant goal.1 == Both(res, Resolve(sub, tokens[i..], release).1)
      {
        var tok := tokens[i];
        ResolveStep(sub, tokens, i, release, res);
        if tok !in sub.locked {
          res := LockResult(res.succeeded, res.failed + [tok]);
          continue;
        }
        var d := sub.locked[tok];
        sub := Subscription(sub.available, sub.locked - {tok});
        if release {
          sub := sub.(available := sub.available + [d]);
        }
        res := LockResult(res.succeeded + [tok], res.failed);
      }
      assert tokens[|tokens|..] == [];
      ResolveEnds(sub, release, res);
      topics := topics[topicName := t.(subs := t.subs[subName := sub])];
    }

    method RenewLocks(topicName: string, subName: string, tokens: seq<Token>, now: int) returns (res: LockResult)
      modifies this
      ensures var t := WithSub(TopicOf(old(topics), topicName), subName);
              var r := Renew(t.subs[subName], tokens, now + lockDuration);
              topics == old(topics)[topicName := t.(subs := t.subs[subName := r.0])] && res == r.1
    {
      hide Renew, Both;
      var t := GetTopic(topicName);
      ghost var before := topics;
      t := GetSub(t, subName);
      var sub := t.subs[subName];
      var deadline := now + lockDuration;
      ghost var goal := Renew(sub, tokens, deadline);
      res := LockResult([], []);
      RenewEnds(sub, deadline, goal.1);
      assert tokens[0..] == tokens;
      for i := 0 to |tokens|
        invariant topics == before
        invariant goal.0 == Renew(sub, tokens[i..], deadline).0
        invariant goal.1 == Both(res, Renew(sub, tokens[i..], deadline).1)
      {
        var tok := tokens[i];
        RenewStep(sub, tokens, i, deadline, res);
        if tok in sub.locked {
          sub := sub.(locked := sub.locked[tok := sub.locked[tok].(deadline := deadline)]);
          res := LockResult(res.succeeded + [tok], res.failed);
        } else {
          res := LockResult(res.succeeded, res.failed + [tok]);
        }
      }
      assert tokens[|tokens|..] == [];
      RenewEnds(sub, deadline, res);
      topics := topics[topicName := t.(subs := t.subs[subName := sub])];
    }
  }

  function Both(a: LockResult, b: LockResult): LockResult {
    LockResult(a.succeeded + b.succeeded, a.failed + b.failed)
  }

  lemma ResolveStep(sub: Subscription, tokens: seq<Token>, i: nat, release: bool, res: LockResult)
    requires i < |tokens|
    ensures var (tok, all) := (tokens[i], Resolve(sub, tokens[i..], release));
            if tok in sub.locked then
              var next := Resolve(ResolveOne(sub, tok, release), tokens[i + 1..], release);
              all.0 == next.0 && Both(res, all.1) == Both(LockResult(res.succeeded + [tok], res.failed), next.1)
            else
              var next := Resolve(sub, tokens[i + 1..], release);
              all.0 == next.0 && Both(res, all.1) == Both(LockResult(res.succeeded, res.failed + [tok]), next.1)
  {
    assert tokens[i..][1..] == tokens[i + 1..];
    var tok := tokens[i];
    var next := Resolve(if tok in sub.locked then ResolveOne(sub, tok, release) else sub, tokens[i + 1..], release).1;
    assert res.succeeded + ([tok] + next.succeeded) == res.succeeded + [tok] + next.succeeded;
    assert res.failed + ([tok] + next.failed) == res.failed + [tok] + next.failed;
  }

  lemma ResolveEnds(sub: Subscription, release: bool, res: LockResult)
    ensures Resolve(sub, [], release) == (sub, LockResult([], []))
    ensures Both(res, LockResult([], [])) == res == Both(LockResult([], []), res)
  {
    assert res.succeeded + [] == res.succeeded && res.failed + [] == res.failed;
    assert [] + res.succeeded == res.succeeded && [] + res.failed == res.failed;
  }

  lemma RenewStep(sub: Subscription, tokens: seq<Token>, i: nat, deadline: int, res: LockResult)
    requires i < |tokens|
    ensures var (tok, all) := (tokens[i], Renew(sub, tokens[i..], deadline));
            if tok in sub.locked then
              var next := Renew(RenewOne(sub, tok, deadline), tokens[i + 1..], deadline);
              all.0 == next.0 && Both(res, all.1) == Both(LockResult(res.succeeded + [tok], res.failed), next.1)
            else
              var next := Renew(sub, tokens[i + 1..], deadline);
              all.0 == next.0 && Both(res, all.1) == Both(LockResult(res.succeeded, res.failed + [tok]), next.1)
  {
    assert tokens[i..][1..] == tokens[i + 1..];
    var tok := tokens[i];
    var next := Renew(if tok in sub.locked then RenewOne(sub, tok, deadline) else sub, tokens[i + 1..], deadline).1;
    assert res.succeeded + ([tok] + next.succeeded) == res.succeeded + [tok] + next.succeeded;
    assert res.failed + ([tok] + next.failed) == res.failed + [tok] + next.failed;
  }

  lemma RenewEnds(sub: Subscription, deadline: int, res: LockResult)
    ensures Renew(sub, [], deadline) == (sub, LockResult([], []))
    ensures Both(res, LockResult([], [])) == res == Both(LockResult([], []), res)
  {
    assert res.succeeded + [] == res.succeeded && res.failed + [] == res.failed;
    assert [] + res.succeeded == res.succeeded && [] + res.failed == res.failed;
  }

  lemma HandStep(sub: Subscription, tokens: seq<Token>, i: nat, deadline: int, out: seq<Received>)
    requires i < |tokens| && sub.available != []
    ensures var d := sub.available[0];
            var all := Hand(sub, tokens[i..], deadline);
            var next := Hand(HandOne(sub, tokens[i], deadline), tokens[i + 1..], deadline);
            all.0 == next.0 && out + all.1 == out + [Received(tokens[i], d.count + 1, d.id, d.event)] + next.1
  {
    assert tokens[i..][1..] == tokens[i + 1..];
  }

  lemma HandEnds(sub: Subscription, tokens: seq<Token>, deadline: int, out: seq<Received>)
    requires tokens == [] || sub.available == []
    ensures Hand(sub, tokens, deadline) == (sub, []) && out + [] == out == [] + out
  {
  }

  /** One event: to the backlog, and to every subscription in whatever order they are visited. */
  method PublishTo(t: Topic, event: string) returns (r: Topic)
    ensures r == PublishOne(t, event)
  {
    var subs := t.subs;
    var unseen := t.subs.Keys;
    while unseen != {}
      invariant unseen <= t.subs.Keys == subs.Keys
      invariant forall name | name in unseen :: subs[name] == t.subs[name]
      invariant forall name | name in t.subs && name !in unseen :: subs[name] == Appended(t.subs[name], |t.backlog|, event)
      decreases |unseen|
    {
      var name :| name in unseen;
      unseen := unseen - {name};
      var sub := subs[name];
      subs := subs[name := sub.(available := sub.available + [Delivery(|t.backlog|, event, 0, ZERO_TIME)])];
    }
    r := Topic(t.backlog + [event], subs);
  }

  /** The loop of Receive: from the front of the queue to under a lock, until enough are out or none is left. */
  method HandOut(from: Subscription, wanted: nat, tokens: seq<Token>, deadline: int)
    returns (sub: Subscription, out: seq<Received>)
    requires |tokens| == wanted
    ensures (sub, out) == Hand(from, tokens, deadline)
  {
    hide Hand;
    sub, out := from, [];
    ghost var goal := Hand(sub, tokens, deadline);
    assert tokens[0..] == tokens && [] + goal.1 == goal.1;
    while |out| < wanted && |sub.available| > 0
      invariant |out| <= wanted
      invariant goal.0 == Hand(sub, tokens[|out|..], deadline).0
      invariant goal.1 == out + Hand(sub, tokens[|out|..], deadline).1
      decreases wanted - |out|
    {
      HandStep(sub, tokens, |out|, deadline, out);
      var d := sub.available[0];
      var token := tokens[|out|];
      d := d.(count := d.count + 1, deadline := deadline);
      sub := Subscription(sub.available[1..], sub.locked[token := d]);
      out := out + [Received(token, d.count, d.id, d.event)];
    }
    HandEnds(sub, tokens[|out|..], deadline, out);
  }

  method GetSub(t: Topic, name: string) returns (r: Topic)
    ensures r == WithSub(t, name)
  {
    r := t;
    if name !in t.subs {
      var sub := Subscription([], map[]);
      for i := 0 to |t.backlog|
        invariant sub == Subscription(Seeded(t.backlog).available[..i], map[])
      {
        sub := sub.(available := sub.available + [Delivery(i, t.backlog[i], 0, ZERO_TIME)]);
      }
      assert sub == Seeded(t.backlog);
      r := t.(subs := t.subs[name := sub]);
    }
  }

  lemma SweepSnoc(sub: Subscription, order: seq<Token>, tok: Token)
    ensures Sweep(sub, order + [tok]) == ExpireOne(Sweep(sub, order), tok)
    decreases |order|
  {
    if order == [] {
      assert [tok][1..] == [];
    } else {
      assert (order + [tok])[1..] == order[1..] + [tok];
    }
  }

  /** The map of locks is visited in any order; what has run out goes back to the queue. */
  method SweepExpired(sub: Subscription, now: int) returns (r: Subscription)
    ensures exists order :: IsSweep(sub, now, order) && r == Sweep(sub, order)
  {
    hide Sweep;
    r := sub;
    ghost var order: seq<Token> := [];
    var unseen := sub.locked.Keys;
    SweepNothing(sub);
    while unseen != {}
      invariant unseen <= sub.locked.Keys && r == Sweep(sub, order)
      invariant forall i, j | 0 <= i < j < |order| :: order[i] != order[j]
      invariant forall tok | tok in order :: tok in sub.locked && now > sub.locked[tok].deadline && tok !in unseen
      invariant forall tok | tok in sub.locked && tok !in unseen && now > sub.locked[tok].deadline :: tok in order
      invariant forall tok | tok in unseen :: tok in r.locked && r.locked[tok] == sub.locked[tok]
      decreases |unseen|
    {
      var tok :| tok in unseen;
      unseen := unseen - {tok};
      if now > r.locked[tok].deadline {
        SweepSnoc(sub, order, tok);
        order := order + [tok];
        r := Subscription(r.available + [r.locked[tok].(deadline := ZERO_TIME)], r.locked - {tok});
      }
    }
  }

  lemma SweepNothing(sub: Subscription)
    ensures Sweep(sub, []) == sub
  {
  }
}
