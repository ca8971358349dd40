/**
 Every run of an Event Grid topic: publishes, receives, acknowledgements, rejections, releases and renewals in any
 order, on subscriptions made at any time.
 */
module EventGridRuns {
  import opened EventGrid
  import opened Wrappers

  // ---- One token or one event at a time ----

  lemma SeededKeeps(backlog: seq<string>, clock: int)
    ensures SubInv(backlog, Seeded(backlog), [], clock) && LocksAreHeld(Seeded(backlog), [])
  {
    var sub := Seeded(backlog);
    forall id: nat | id < |backlog| ensures Among(sub.available, id) {
      assert sub.available[id].id == id;
    }
  }

  lemma AppendedHome(n: nat, sub: Subscription, settled: set<nat>, event: string)
    requires OneHome(n, sub, settled)
    ensures OneHome(n + 1, Appended(sub, n, event), settled)
  {
    hide Among, Locked;
    AmongAppended(sub.available, Delivery(n, event, 0, ZERO_TIME));
    forall i | 0 <= i < |sub.available| ensures sub.available[i].id < n {
      HereAmong(sub.available, i);
    }
    forall t | t in sub.locked ensures sub.locked[t].id < n {
      HereLocked(sub.locked, t);
    }
  }

  lemma AppendedKeeps(backlog: seq<string>, sub: Subscription, log: Log, clock: int, event: string)
    requires SubInv(backlog, sub, log, clock)
    ensures SubInv(backlog + [event], Appended(sub, |backlog|, event), log, clock)
  {
    hide SettledIds, TimesHanded, Open, HandedFree, OneHome;
    AppendedHome(|backlog|, sub, SettledIds(log), event);
    assert AllFaithful(backlog + [event], Appended(sub, |backlog|, event), log);
  }

  lemma AmongAppended(s: seq<Delivery>, d: Delivery)
    ensures forall id :: Among(s + [d], id) <==> Among(s, id) || id == d.id
  {
    forall id | Among(s, id) || id == d.id ensures Among(s + [d], id) {
      if id == d.id {
        assert (s + [d])[|s|].id == id;
      } else {
        var i :| 0 <= i < |s| && s[i].id == id;
        assert (s + [d])[i].id == id;
      }
    }
    forall id | Among(s + [d], id) ensures Among(s, id) || id == d.id {
      var i :| 0 <= i < |s + [d]| && (s + [d])[i].id == id;
      if i < |s| {
        assert s[i].id == id;
      }
    }
  }

  lemma AmongRest(s: seq<Delivery>)
    requires s != []
    ensures forall id :: Among(s, id) <==> Among(s[1..], id) || id == s[0].id
  {
    forall id | Among(s, id) ensures Among(s[1..], id) || id == s[0].id {
      var i :| 0 <= i < |s| && s[i].id == id;
      if i > 0 {
        assert s[1..][i - 1].id == id;
      }
    }
    forall id | Among(s[1..], id) ensures Among(s, id) {
      var i :| 0 <= i < |s[1..]| && s[1..][i].id == id;
      assert s[i + 1].id == id;
    }
  }

  lemma LockedPlus(m: map<Token, Delivery>, tok: Token, d: Delivery)
    requires tok in m ==> m[tok].id == d.id
    ensures forall id :: Locked(m[tok := d], id) <==> Locked(m, id) || id == d.id
  {
    var m' := m[tok := d];
    forall id | Locked(m, id) || id == d.id ensures Locked(m', id) {
      if id == d.id {
        assert m'[tok].id == id;
      } else {
        var t :| t in m && m[t].id == id;
        assert t != tok && m'[t].id == id;
      }
    }
  }

  lemma LockedMinus(m: map<Token, Delivery>, tok: Token)
    requires tok in m
    ensures forall id :: Locked(m, id) <==> Locked(m - {tok}, id) || id == m[tok].id
  {
    var m' := m - {tok};
    forall id | Locked(m, id) ensures Locked(m', id) || id == m[tok].id {
      var t :| t in m && m[t].id == id;
      if t != tok {
        assert m'[t].id == id;
      }
    }
  }

  /** The event at the head moves from the available ones under a lock. */
  lemma HandOneHome(n: nat, sub: Subscription, settled: set<nat>, tok: Token, deadline: int)
    requires OneHome(n, sub, settled) && sub.available != [] && tok !in sub.locked
    ensures OneHome(n, HandOne(sub, tok, deadline), settled)
  {
    hide Among, Locked;
    AmongRest(sub.available);
    var rest := sub.available[1..];
    assert forall i | 0 <= i < |rest| :: rest[i] == sub.available[i + 1];
    var sub' := HandOne(sub, tok, deadline);
    LockedPlus(sub.locked, tok, sub'.locked[tok]);
    assert sub'.locked == sub.locked[tok := sub'.locked[tok]];
    forall i, t | 0 <= i < |rest| && t in sub'.locked ensures rest[i].id != sub'.locked[t].id {
      assert rest[i] == sub.available[i + 1] && (t != tok ==> t in sub.locked);
    }
    forall id: nat ensures id < n <==> Among(sub'.available, id) || Locked(sub'.locked, id) || id in settled {
      assert Among(sub.available, id) <==> Among(rest, id) || id == sub.available[0].id;
      assert Locked(sub'.locked, id) <==> Locked(sub.locked, id) || id == sub.available[0].id;
    }
  }

  lemma HandOneKeeps(backlog: seq<string>, sub: Subscription, log: Log, clock: int, tok: Token, deadline: int)
    requires SubInv(backlog, sub, log, clock) && sub.available != [] && tok !in sub.locked
    ensures SubInv(backlog, HandOne(sub, tok, deadline), log + [Handed(sub.available[0].id, tok, clock, deadline)], clock)
  {
    hide SettledIds, TimesHanded, Open, HandedFree, Among, Locked;
    var d := sub.available[0];
    var a := Handed(d.id, tok, clock, deadline);
    LogStep(log, a);
    assert Free(log, d.id, clock);
    HandOneHome(|backlog|, sub, SettledIds(log), tok, deadline);
    assert Among(sub.available, d.id) by { HereAmong(sub.available, 0); }
  }

  lemma HandOneHolds(sub: Subscription, log: Log, clock: int, tok: Token, deadline: int)
    requires LocksAreHeld(sub, log) && sub.available != []
    ensures LocksAreHeld(HandOne(sub, tok, deadline), log + [Handed(sub.available[0].id, tok, clock, deadline)])
  {
    hide Held;
    LogStep(log, Handed(sub.available[0].id, tok, clock, deadline));
  }

  lemma HereAmong(s: seq<Delivery>, i: nat)
    requires i < |s|
    ensures Among(s, s[i].id)
  {
  }

  /** A lock that ends puts its event at the end of the available ones. */
  lemma ReturnedHome(n: nat, sub: Subscription, settled: set<nat>, tok: Token, d: Delivery)
    requires OneHome(n, sub, settled) && tok in sub.locked && d.id == sub.locked[tok].id
    ensures OneHome(n, Subscription(sub.available + [d], sub.locked - {tok}), settled)
  {
    hide Among, Locked;
    AmongAppended(sub.available, d);
    LockedMinus(sub.locked, tok);
  }

  lemma ExpireOneKeeps(backlog: seq<string>, sub: Subscription, log: Log, clock: int, tok: Token)
    requires SubInv(backlog, sub, log, clock) && tok in sub.locked && clock > sub.locked[tok].deadline
    ensures SubInv(backlog, ExpireOne(sub, tok), log, clock)
  {
    hide SettledIds, TimesHanded, Open, HandedFree, OneHome;
    ReturnedHome(|backlog|, sub, SettledIds(log), tok, sub.locked[tok].(deadline := ZERO_TIME));
  }

  lemma SettledHome(n: nat, sub: Subscription, settled: set<nat>, tok: Token)
    requires OneHome(n, sub, settled) && tok in sub.locked
    ensures OneHome(n, Subscription(sub.available, sub.locked - {tok}), settled + {sub.locked[tok].id})
  {
    hide Among, Locked;
    LockedMinus(sub.locked, tok);
  }

  lemma ResolveOneKeeps(backlog: seq<string>, sub: Subscription, log: Log, clock: int, tok: Token, release: bool)
    requires SubInv(backlog, sub, log, clock) && tok in sub.locked
    ensures SubInv(backlog, ResolveOne(sub, tok, release), log + [if release then Released(tok) else Settled(tok)], clock)
  {
    hide SettledIds, TimesHanded, Open, HandedFree, OneHome;
    var a := if release then Released(tok) else Settled(tok);
    LogStep(log, a);
    if release {
      ReturnedHome(|backlog|, sub, SettledIds(log), tok, sub.locked[tok]);
    } else {
      SettledHome(|backlog|, sub, SettledIds(log), tok);
    }
  }

  lemma ResolveOneHolds(sub: Subscription, log: Log, tok: Token, release: bool)
    requires LocksAreHeld(sub, log) && tok in sub.locked
    ensures LocksAreHeld(ResolveOne(sub, tok, release), log + [if release then Released(tok) else Settled(tok)])
  {
    hide Held;
    LogStep(log, if release then Released(tok) else Settled(tok));
  }

  lemma RenewOneHolds(sub: Subscription, log: Log, tok: Token, deadline: int)
    requires LocksAreHeld(sub, log) && tok in sub.locked
    ensures LocksAreHeld(RenewOne(sub, tok, deadline), log + [Renewed(tok, deadline)])
  {
    hide Held;
    LogStep(log, Renewed(tok, deadline));
  }

  lemma RenewedHome(n: nat, sub: Subscription, settled: set<nat>, tok: Token, deadline: int)
    requires OneHome(n, sub, settled) && tok in sub.locked
    ensures OneHome(n, RenewOne(sub, tok, deadline), settled)
  {
    hide Among, Locked;
    LockedPlus(sub.locked, tok, sub.locked[tok].(deadline := deadline));
    assert RenewOne(sub, tok, deadline).locked == sub.locked[tok := sub.locked[tok].(deadline := deadline)];
    assert Locked(sub.locked, sub.locked[tok].id) by { HereLocked(sub.locked, tok); }
  }

  lemma HereLocked(m: map<Token, Delivery>, tok: Token)
    requires tok in m
    ensures Locked(m, m[tok].id)
  {
  }

  lemma RenewOneKeeps(backlog: seq<string>, sub: Subscription, log: Log, clock: int, tok: Token, deadline: int)
    requires SubInv(backlog, sub, log, clock) && tok in sub.locked
    ensures SubInv(backlog, RenewOne(sub, tok, deadline), log + [Renewed(tok, deadline)], clock)
  {
    hide SettledIds, TimesHanded, Open, HandedFree, OneHome;
    LogStep(log, Renewed(tok, deadline));
    RenewedHome(|backlog|, sub, SettledIds(log), tok, deadline);
  }

  lemma ClockKeeps(backlog: seq<string>, sub: Subscription, log: Log, clock: int, now: int)
    requires SubInv(backlog, sub, log, clock) && clock <= now
    ensures SubInv(backlog, sub, log, now)
  {
  }

  // ---- Whole operations ----

  lemma {:induction false} SweepKeeps(backlog: seq<string>, sub: Subscription, log: Log, now: int, order: seq<Token>)
    requires SubInv(backlog, sub, log, now) && IsSweep(sub, now, order)
    ensures SubInv(backlog, Sweep(sub, order), log, now)
    ensures Sweep(sub, order).locked.Keys <= sub.locked.Keys
    decreases |order|
  {
    hide SubInv;
    if order != [] {
      ExpireOneKeeps(backlog, sub, log, now, order[0]);
      var sub' := ExpireOne(sub, order[0]);
      forall tok | tok in sub'.locked && now > sub'.locked[tok].deadline ensures tok in order[1..] {
        assert tok in order && tok != order[0];
      }
      SweepKeeps(backlog, sub', log, now, order[1..]);
    }
  }

  lemma SweepLogged(backlog: seq<string>, sub: Subscription, log: Log, now: int, order: seq<Token>)
    requires SubInv(backlog, sub, log, now) && LocksAreHeld(sub, log) && IsSweep(sub, now, order)
    ensures SubInv(backlog, Sweep(sub, order), log + [Swept(now)], now)
    ensures LocksAreHeld(Sweep(sub, order), log + [Swept(now)])
  {
    hide SettledIds, TimesHanded, Open, Held, HandedFree, OneHome, Sweep;
    LogStep(log, Swept(now));
    SweepKeeps(backlog, sub, log, now, order);
    SweepFacts(sub, now, order);
  }

  function HandedActions(received: seq<Received>, at: int, deadline: int): seq<Action> {
    if received == [] then []
    else [Handed(received[0].id, received[0].token, at, deadline)] + HandedActions(received[1..], at, deadline)
  }

  ghost predicate Fresh(tokens: seq<Token>, sub: Subscription) {
    && (forall i, j | 0 <= i < j < |tokens| :: tokens[i] != tokens[j])
    && (forall tok | tok in tokens :: tok !in sub.locked)
  }

  lemma {:induction false} HandKeeps(backlog: seq<string>, sub: Subscription, log: Log, now: int,
                                     tokens: seq<Token>, deadline: int)
    requires SubInv(backlog, sub, log, now) && LocksAreHeld(sub, log) && Fresh(tokens, sub)
    ensures var (sub', received) := Hand(sub, tokens, deadline);
            var log' := log + HandedActions(received, now, deadline);
            SubInv(backlog, sub', log', now) && LocksAreHeld(sub', log')
    decreases |tokens|
  {
    hide SubInv, LocksAreHeld;
    if tokens == [] || sub.available == [] {
      assert log + [] == log;
    } else {
      var d := sub.available[0];
      var a := Handed(d.id, tokens[0], now, deadline);
      HandOneKeeps(backlog, sub, log, now, tokens[0], deadline);
      HandOneHolds(sub, log, now, tokens[0], deadline);
      var next := HandOne(sub, tokens[0], deadline);
      HandKeeps(backlog, next, log + [a], now, tokens[1..], deadline);
      var rest := Hand(next, tokens[1..], deadline).1;
      var received := [Received(tokens[0], d.count + 1, d.id, d.event)] + rest;
      assert received[1..] == rest;
      assert log + [a] + HandedActions(rest, now, deadline) == log + HandedActions(received, now, deadline);
    }
  }

  function ResolvedActions(tokens: seq<Token>, release: bool): seq<Action> {
    if tokens == [] then []
    else [if release then Released(tokens[0]) else Settled(tokens[0])] + ResolvedActions(tokens[1..], release)
  }

  lemma {:induction false} ResolveKeeps(backlog: seq<string>, sub: Subscription, log: Log, clock: int,
                                        tokens: seq<Token>, release: bool)
    requires SubInv(backlog, sub, log, clock) && LocksAreHeld(sub, log)
    ensures var (sub', res) := Resolve(sub, tokens, release);
            var log' := log + ResolvedActions(res.succeeded, release);
            SubInv(backlog, sub', log', clock) && LocksAreHeld(sub', log')
    decreases |tokens|
  {
    hide SubInv, LocksAreHeld;
    if tokens == [] {
      assert log + [] == log;
    } else if tokens[0] in sub.locked {
      var a := if release then Released(tokens[0]) else Settled(tokens[0]);
      ResolveOneKeeps(backlog, sub, log, clock, tokens[0], release);
      ResolveOneHolds(sub, log, tokens[0], release);
      var next := ResolveOne(sub, tokens[0], release);
      ResolveKeeps(backlog, next, log + [a], clock, tokens[1..], release);
      var rest := Resolve(next, tokens[1..], release).1.succeeded;
      assert ([tokens[0]] + rest)[1..] == rest;
      assert log + [a] + ResolvedActions(rest, release) == log + ResolvedActions([tokens[0]] + rest, release);
    } else {
      ResolveKeeps(backlog, sub, log, clock, tokens[1..], release);
    }
  }

  function RenewedActions(tokens: seq<Token>, deadline: int): seq<Action> {
    if tokens == [] then [] else [Renewed(tokens[0], deadline)] + RenewedActions(tokens[1..], deadline)
  }

  lemma {:induction false} RenewKeeps(backlog: seq<string>, sub: Subscription, log: Log, clock: int,
                                      tokens: seq<Token>, deadline: int)
    requires SubInv(backlog, sub, log, clock) && LocksAreHeld(sub, log)
    ensures var (sub', res) := Renew(sub, tokens, deadline);
            var log' := log + RenewedActions(res.succeeded, deadline);
            SubInv(backlog, sub', log', clock) && LocksAreHeld(sub', log')
    decreases |tokens|
  {
    hide SubInv, LocksAreHeld;
    if tokens == [] {
      assert log + [] == log;
    } else if tokens[0] in sub.locked {
      RenewOneKeeps(backlog, sub, log, clock, tokens[0], deadline);
      RenewOneHolds(sub, log, tokens[0], deadline);
      var next := RenewOne(sub, tokens[0], deadline);
      RenewKeeps(backlog, next, log + [Renewed(tokens[0], deadline)], clock, tokens[1..], deadline);
      var rest := Renew(next, tokens[1..], deadline).1.succeeded;
      assert ([tokens[0]] + rest)[1..] == rest;
      assert log + [Renewed(tokens[0], deadline)] + RenewedActions(rest, deadline) ==
             log + RenewedActions([tokens[0]] + rest, deadline);
    } else {
      RenewKeeps(backlog, sub, log, clock, tokens[1..], deadline);
    }
  }

  // ---- Runs ----

  /**
   A topic, what each subscription's consumers saw, the time of the last call that read the clock, and
   the lock duration.
   */
  datatype World = World(topic: Topic, logs: map<string, Log>, clock: int, duration: int)

  datatype Step =
    | Published(events: seq<string>)
    | Receives(name: string, max: int, order: seq<Token>, tokens: seq<Token>, now: int)
    | Resolves(name: string, tokens: seq<Token>, release: bool)
    | Renews(name: string, tokens: seq<Token>, now: int)

  function LogOf(w: World, name: string): Log {
    if name in w.logs then w.logs[name] else []
  }

  /** The clock does not go back, and the random tokens differ from each other and from those in use. */
  ghost predicate Enabled(w: World, s: Step) {
    match s
    case Published(_) => true
    case Receives(name, max, order, tokens, now) =>
      && now >= w.clock && |tokens| == EffectiveMax(max)
      && IsSweep(WithSub(w.topic, name).subs[name], now, order)
      && Fresh(tokens, WithSub(w.topic, name).subs[name])
    case Resolves(_, _, _) => true
    case Renews(_, _, now) => now >= w.clock
  }

  function Next(w: World, s: Step): World {
    match s
    case Published(events) => w.(topic := Publish(w.topic, events))
    case Receives(name, _, order, tokens, now) =>
      var t := WithSub(w.topic, name);
      var (sub, received) := Hand(Sweep(t.subs[name], order), tokens, now + w.duration);
      World(t.(subs := t.subs[name := sub]),
            w.logs[name := LogOf(w, name) + [Swept(now)] + HandedActions(received, now, now + w.duration)],
            now, w.duration)
    case Resolves(name, tokens, release) =>
      var t := WithSub(w.topic, name);
      var (sub, res) := Resolve(t.subs[name], tokens, release);
      w.(topic := t.(subs := t.subs[name := sub]),
         logs := w.logs[name := LogOf(w, name) + ResolvedActions(res.succeeded, release)])
    case Renews(name, tokens, now) =>
      var t := WithSub(w.topic, name);
      var (sub, res) := Renew(t.subs[name], tokens, now + w.duration);
      World(t.(subs := t.subs[name := sub]),
            w.logs[name := LogOf(w, name) + RenewedActions(res.succeeded, now + w.duration)], now, w.duration)
  }

  ghost predicate IsRun(w: World, steps: seq<Step>, w': World)
    decreases |steps|
  {
    if steps == [] then w == w' else Enabled(w, steps[0]) && IsRun(Next(w, steps[0]), steps[1..], w')
  }

  function Initial(clock: int, duration: int): World {
    World(Topic([], map[]), map[], clock, duration)
  }

  ghost predicate Inv(w: World) {
    && w.logs.Keys <= w.topic.subs.Keys
    && forall name | name in w.topic.subs ::
         SubInv(w.topic.backlog, w.topic.subs[name], LogOf(w, name), w.clock)
         && LocksAreHeld(w.topic.subs[name], LogOf(w, name))
  }

  lemma WithSubKeeps(w: World, name: string)
    requires Inv(w)
    ensures Inv(w.(topic := WithSub(w.topic, name)))
  {
    hide SubInv, LocksAreHeld, Seeded;
    SeededKeeps(w.topic.backlog, w.clock);
  }

  lemma PublishOneKeeps(w: World, event: string)
    requires Inv(w)
    ensures Inv(w.(topic := PublishOne(w.topic, event)))
  {
    hide SubInv;
    forall name | name in w.topic.subs
      ensures SubInv(w.topic.backlog + [event], Appended(w.topic.subs[name], |w.topic.backlog|, event),
                     LogOf(w, name), w.clock)
      ensures LocksAreHeld(Appended(w.topic.subs[name], |w.topic.backlog|, event), LogOf(w, name))
    {
      AppendedKeeps(w.topic.backlog, w.topic.subs[name], LogOf(w, name), w.clock, event);
    }
  }

  lemma {:induction false} PublishKeeps(w: World, events: seq<string>)
    requires Inv(w)
    ensures Inv(w.(topic := Publish(w.topic, events)))
    decreases |events|
  {
    hide Inv, PublishOne;
    if events == [] {
      assert w.(topic := w.topic) == w;
    } else {
      PublishOneKeeps(w, events[0]);
      PublishKeeps(w.(topic := PublishOne(w.topic, events[0])), events[1..]);
    }
  }

  /** One subscription and its log replaced, the clock moved on. */
  lemma OneReplaced(w: World, name: string, sub: Subscription, log: Log, now: int)
    requires Inv(w) && name in w.topic.subs && w.clock <= now
    requires SubInv(w.topic.backlog, sub, log, now) && LocksAreHeld(sub, log)
    ensures Inv(World(w.topic.(subs := w.topic.subs[name := sub]), w.logs[name := log], now, w.duration))
  {
    hide SubInv;
    forall other | other in w.topic.subs && other != name
      ensures SubInv(w.topic.backlog, w.topic.subs[other], LogOf(w, other), now)
    {
      ClockKeeps(w.topic.backlog, w.topic.subs[other], LogOf(w, other), w.clock, now);
    }
  }

  lemma FreshAfter(tokens: seq<Token>, sub: Subscription, sub': Subscription)
    requires Fresh(tokens, sub) && sub'.locked.Keys <= sub.locked.Keys
    ensures Fresh(tokens, sub')
  {
  }

  lemma ReceivesKeeps(w: World, name: string, max: int, order: seq<Token>, tokens: seq<Token>, now: int)
    requires Inv(w) && Enabled(w, Receives(name, max, order, tokens, now))
    ensures Inv(Next(w, Receives(name, max, order, tokens, now)))
  {
    hide SubInv, LocksAreHeld, Inv, IsSweep, Fresh, Sweep, Hand, HandedActions;
    var w' := w.(topic := WithSub(w.topic, name));
    WithSubKeeps(w, name);
    SubOf(w', name);
    var sub, log := w'.topic.subs[name], LogOf(w, name);
    ClockKeeps(w.topic.backlog, sub, log, w.clock, now);
    SweepLogged(w.topic.backlog, sub, log, now, order);
    SweepFacts(sub, now, order);
    FreshAfter(tokens, sub, Sweep(sub, order));
    HandKeeps(w.topic.backlog, Sweep(sub, order), log + [Swept(now)], now, tokens, now + w.duration);
    var r := Hand(Sweep(sub, order), tokens, now + w.duration);
    OneReplaced(w', name, r.0, log + [Swept(now)] + HandedActions(r.1, now, now + w.duration), now);
  }

  lemma SubOf(w: World, name: string)
    requires Inv(w) && name in w.topic.subs
    ensures SubInv(w.topic.backlog, w.topic.subs[name], LogOf(w, name), w.clock)
    ensures LocksAreHeld(w.topic.subs[name], LogOf(w, name))
  {
  }

  lemma InvStep(w: World, s: Step)
    requires Inv(w) && Enabled(w, s)
    ensures Inv(Next(w, s))
  {
    hide SubInv, LocksAreHeld, Inv, Resolve, Renew, ResolvedActions, RenewedActions;
    match s
    case Published(events) => PublishKeeps(w, events);
    case Receives(name, max, order, tokens, now) => ReceivesKeeps(w, name, max, order, tokens, now);
    case Resolves(name, tokens, release) =>
      var w' := w.(topic := WithSub(w.topic, name));
      WithSubKeeps(w, name);
      SubOf(w', name);
      ResolveKeeps(w.topic.backlog, w'.topic.subs[name], LogOf(w, name), w.clock, tokens, release);
      var r := Resolve(w'.topic.subs[name], tokens, release);
      OneReplaced(w', name, r.0, LogOf(w, name) + ResolvedActions(r.1.succeeded, release), w.clock);
    case Renews(name, tokens, now) =>
      var w' := w.(topic := WithSub(w.topic, name));
      WithSubKeeps(w, name);
      SubOf(w', name);
      var sub := w'.topic.subs[name];
      ClockKeeps(w.topic.backlog, sub, LogOf(w, name), w.clock, now);
      RenewKeeps(w.topic.backlog, sub, LogOf(w, name), now, tokens, now + w.duration);
      var r := Renew(sub, tokens, now + w.duration);
      OneReplaced(w', name, r.0, LogOf(w, name) + RenewedActions(r.1.succeeded, now + w.duration), now);
  }

  lemma {:induction false} RunKeeps(w: World, steps: seq<Step>, w': World)
    requires Inv(w) && IsRun(w, steps, w')
    ensures Inv(w')
    decreases |steps|
  {
    hide Inv, Enabled, Next;
    if steps != [] {
      InvStep(w, steps[0]);
      RunKeeps(Next(w, steps[0]), steps[1..], w');
    }
  }

  /**
   In every reachable state, for every subscription, made before or after the publishes: each event of the backlog is
   available, locked or settled, in one place and once; what is held is the backlog's event with the number of times it
   was received; and whatever was handed out was free then, its earlier locks released or run out.
   */
  lemma Safety(clock: int, duration: int, steps: seq<Step>, w: World, name: string)
    requires IsRun(Initial(clock, duration), steps, w) && name in w.topic.subs
    ensures var sub, log := w.topic.subs[name], LogOf(w, name);
            && OneHome(|w.topic.backlog|, sub, SettledIds(log))
            && AllFaithful(w.topic.backlog, sub, log)
            && ClaimsAreLocks(sub, log, w.clock)
            && LocksAreHeld(sub, log)
            && HandedFree(log)
  {
    hide IsRun, OneHome, AllFaithful, ClaimsAreLocks, LocksAreHeld, HandedFree;
    assert Inv(Initial(clock, duration));
    RunKeeps(Initial(clock, duration), steps, w);
  }

  // ---- In a consumer's words ----

  lemma {:induction false} HandedFreeAt(log: Log, j: nat)
    requires HandedFree(log) && j < |log| && log[j].Handed?
    ensures Free(log[..j], log[j].id, log[j].at)
    decreases |log|
  {
    hide Free;
    if j < |log| - 1 {
      HandedFreeAt(log[..|log| - 1], j);
      assert log[..|log| - 1][..j] == log[..j];
    }
  }

  predicate About(a: Action, tok: Token) {
    !a.Swept? && a.token == tok
  }

  lemma {:induction false} ClaimStands(log: Log, i: nat, j: nat)
    requires i < j <= |log| && log[i].Handed? && forall k | i < k < j :: !About(log[k], log[i].token)
    ensures Open(log[..j], log[i].token) == Some(Claim(log[i].id, log[i].deadline))
    decreases j
  {
    assert log[..j][..j - 1] == log[..j - 1];
    if i < j - 1 {
      ClaimStands(log, i, j - 1);
    }
  }

  /**
   An event received twice, its first lock never renewed, released or settled in between, was received
   again only after that lock ran out.
   */
  lemma NotTwiceUnderOneLock(clock: int, duration: int, steps: seq<Step>, w: World, name: string, i: nat, j: nat)
    requires IsRun(Initial(clock, duration), steps, w) && name in w.topic.subs
    requires var log := LogOf(w, name);
             && i < j < |log| && log[i].Handed? && log[j].Handed? && log[i].id == log[j].id
             && forall k | i < k < j :: !About(log[k], log[i].token)
    ensures LogOf(w, name)[j].at > LogOf(w, name)[i].deadline
  {
    hide IsRun, OneHome, AllFaithful, ClaimsAreLocks, LocksAreHeld, HandedFree, Open;
    Safety(clock, duration, steps, w, name);
    HandedFreeAt(LogOf(w, name), j);
    ClaimStands(LogOf(w, name), i, j);
  }

  /**
   What a token still holds: no receive has come later than the deadline it got when it was received or
   last renewed, nothing else having been done with it since.
   */
  lemma {:induction false} HeldUntilSwept(log: Log, i: nat, j: nat)
    requires i < j <= |log| && (log[i].Handed? || (log[i].Renewed? && Held(log[..i], log[i].token).Some?))
    requires forall k | i < k < j :: !About(log[k], log[i].token)
    ensures var held := Held(log[..j], log[i].token);
            && (held.Some? <==> forall k | i < k < j && log[k].Swept? :: log[k].at <= log[i].deadline)
            && (held.Some? ==> held.value.deadline == log[i].deadline)
    decreases j
  {
    assert log[..j][..j - 1] == log[..j - 1];
    if i < j - 1 {
      HeldUntilSwept(log, i, j - 1);
    }
  }

  lemma {:induction false} ResolvedOnce(sub: Subscription, tokens: seq<Token>, release: bool)
    ensures var res := Resolve(sub, tokens, release).1;
            && (forall tok :: multiset(res.succeeded)[tok] == if tok in tokens && tok in sub.locked then 1 else 0)
            && multiset(res.succeeded) + multiset(res.failed) == multiset(tokens)
    decreases |tokens|
  {
    if tokens != [] {
      assert tokens == [tokens[0]] + tokens[1..];
      ResolvedOnce(if tokens[0] in sub.locked then ResolveOne(sub, tokens[0], release) else sub, tokens[1..], release);
    }
  }

  /**
   An acknowledgement, rejection or release succeeds for exactly the tokens that are held, each once
   however often it is named.
   */
  lemma ResolveOutcome(sub: Subscription, log: Log, tokens: seq<Token>, release: bool)
    requires LocksAreHeld(sub, log)
    ensures var res := Resolve(sub, tokens, release).1;
            && (forall tok :: multiset(res.succeeded)[tok] == if tok in tokens && Held(log, tok).Some? then 1 else 0)
            && multiset(res.succeeded) + multiset(res.failed) == multiset(tokens)
  {
    hide Resolve, Held;
    ResolvedOnce(sub, tokens, release);
  }

  lemma {:induction false} RenewedEach(sub: Subscription, tokens: seq<Token>, deadline: int)
    ensures var res := Renew(sub, tokens, deadline).1;
            && (forall tok | tok in res.succeeded :: tok in sub.locked)
            && (forall tok | tok in res.failed :: tok !in sub.locked)
            && multiset(res.succeeded) + multiset(res.failed) == multiset(tokens)
    decreases |tokens|
  {
    if tokens != [] {
      assert tokens == [tokens[0]] + tokens[1..];
      RenewedEach(if tokens[0] in sub.locked then RenewOne(sub, tokens[0], deadline) else sub, tokens[1..], deadline);
    }
  }

  /** A renewal succeeds for exactly the tokens that are held, as often as they are named. */
  lemma RenewOutcome(sub: Subscription, log: Log, tokens: seq<Token>, deadline: int)
    requires LocksAreHeld(sub, log)
    ensures var res := Renew(sub, tokens, deadline).1;
            && (forall tok | tok in res.succeeded :: Held(log, tok).Some?)
            && (forall tok | tok in res.failed :: Held(log, tok).None?)
            && multiset(res.succeeded) + multiset(res.failed) == multiset(tokens)
  {
    hide Renew, Held;
    RenewedEach(sub, tokens, deadline);
  }

  lemma NothingYet(clock: int, duration: int)
    ensures Inv(Initial(clock, duration))
  {
  }

  /** In every reachable state the outcome of each call on a subscription is decided by what its consumers saw. */
  lemma OutcomeExactly(clock: int, duration: int, steps: seq<Step>, w: World, name: string, tokens: seq<Token>,
                       release: bool, deadline: int, tok: Token)
    requires IsRun(Initial(clock, duration), steps, w) && tok in tokens
    ensures var (sub, held) := (WithSub(w.topic, name).subs[name], Held(LogOf(w, name), tok).Some?);
            var (resolved, renewed) := (Resolve(sub, tokens, release).1, Renew(sub, tokens, deadline).1);
            && (tok in resolved.succeeded <==> held) && (tok in renewed.succeeded <==> held)
            && (tok in renewed.failed <==> !held)
            && (tok in resolved.failed <==> !held || multiset(tokens)[tok] > 1)
  {
    hide IsRun, Inv, SubInv, LocksAreHeld, Held, Resolve, Renew, Seeded;
    assert Inv(Initial(clock, duration)) by { NothingYet(clock, duration); }
    RunKeeps(Initial(clock, duration), steps, w);
    WithSubKeeps(w, name);
    SubOf(w.(topic := WithSub(w.topic, name)), name);
    var sub, log := WithSub(w.topic, name).subs[name], LogOf(w, name);
    ResolveOutcome(sub, log, tokens, release);
    RenewOutcome(sub, log, tokens, deadline);
    var r, s := Resolve(sub, tokens, release).1, Renew(sub, tokens, deadline).1;
    assert multiset(tokens)[tok] == multiset(r.succeeded)[tok] + multiset(r.failed)[tok];
    assert multiset(tokens)[tok] == multiset(s.succeeded)[tok] + multiset(s.failed)[tok];
    assert tok in multiset(tokens);
  }

  // ---- A receive gives out everything it may ----

  lemma {:induction false} SweepFacts(sub: Subscription, now: int, order: seq<Token>)
    requires IsSweep(sub, now, order)
    ensures Sweep(sub, order).locked == sub.locked - (set tok | tok in order)
    ensures sub.available <= Sweep(sub, order).available
    decreases |order|
  {
    if order == [] {
      assert sub.locked - (set tok | tok in order) == sub.locked;
    } else {
      var sub' := ExpireOne(sub, order[0]);
      forall tok | tok in sub'.locked && now > sub'.locked[tok].deadline ensures tok in order[1..] {
        assert tok in order && tok != order[0];
      }
      SweepFacts(sub', now, order[1..]);
      hide Sweep, IsSweep;
      WithoutFirst(sub.locked, order);
    }
  }

  lemma WithoutFirst<V>(m: map<Token, V>, order: seq<Token>)
    requires order != []
    ensures m - {order[0]} - (set tok | tok in order[1..]) == m - (set tok | tok in order)
  {
    assert order == [order[0]] + order[1..];
    assert (set tok | tok in order) == {order[0]} + (set tok | tok in order[1..]);
  }

  /** A receive hands out the available events in order, as many as it has tokens for. */
  lemma {:induction false} HandFacts(sub: Subscription, tokens: seq<Token>, deadline: int)
    ensures var (rest, received) := Hand(sub, tokens, deadline);
            && |received| == (if |tokens| < |sub.available| then |tokens| else |sub.available|)
            && rest.available == sub.available[|received|..]
            && forall k | 0 <= k < |received| ::
                 && received[k].token == tokens[k] && received[k].id == sub.available[k].id
                 && received[k].event == sub.available[k].event && received[k].count == sub.available[k].count + 1
    decreases |tokens|
  {
    if tokens != [] && sub.available != [] {
      HandFacts(HandOne(sub, tokens[0], deadline), tokens[1..], deadline);
    }
  }

  /** Whatever is not settled and not under a running lock is received by the next receive that asks for enough. */
  lemma NothingStranded(w: World, name: string, max: int, order: seq<Token>, tokens: seq<Token>, now: int, id: nat)
    requires Inv(w) && Enabled(w, Receives(name, max, order, tokens, now))
    requires var sub := WithSub(w.topic, name).subs[name];
             && id < |w.topic.backlog| && id !in SettledIds(LogOf(w, name))
             && (forall tok | tok in sub.locked && sub.locked[tok].id == id :: now > sub.locked[tok].deadline)
             && |Sweep(sub, order).available| <= |tokens|
    ensures exists r ::
              && r in Hand(Sweep(WithSub(w.topic, name).subs[name], order), tokens, now + w.duration).1
              && r.id == id && r.event == w.topic.backlog[id]
  {
    hide SubInv, Inv, IsSweep, Fresh, Sweep, Hand, SettledIds;
    var w' := w.(topic := WithSub(w.topic, name));
    WithSubKeeps(w, name);
    SubOf(w', name);
    var sub, log := w'.topic.subs[name], LogOf(w, name);
    ClockKeeps(w.topic.backlog, sub, log, w.clock, now);
    SweepKeeps(w.topic.backlog, sub, log, now, order);
    var swept := Sweep(sub, order);
    OnlyRunningLocks(sub, now, order);
    var i := FoundAvailable(w.topic.backlog, swept, log, now, id);
    HandFacts(swept, tokens, now + w.duration);
    var received := Hand(swept, tokens, now + w.duration).1;
    assert received[i] in received;
  }

  lemma OnlyRunningLocks(sub: Subscription, now: int, order: seq<Token>)
    requires IsSweep(sub, now, order)
    ensures forall tok | tok in Sweep(sub, order).locked ::
              tok in sub.locked && sub.locked[tok] == Sweep(sub, order).locked[tok] && now <= sub.locked[tok].deadline
  {
    SweepFacts(sub, now, order);
  }

  lemma FoundAvailable(backlog: seq<string>, sub: Subscription, log: Log, clock: int, id: nat) returns (i: nat)
    requires SubInv(backlog, sub, log, clock) && id < |backlog| && id !in SettledIds(log)
    requires forall tok | tok in sub.locked :: sub.locked[tok].id != id
    ensures i < |sub.available| && sub.available[i].id == id && sub.available[i].event == backlog[id]
  {
    hide SettledIds, ClaimsAreLocks, HandedFree;
    assert Among(sub.available, id);
    i :| 0 <= i < |sub.available| && sub.available[i].id == id;
    assert Faithful(backlog, log, sub.available[i]);
  }
}
