/**
 Event Grid pull delivery: a topic keeps every event it was given, and each subscription hands events out under
 lock tokens until they are acknowledged, rejected, released or their locks run out.
 */
module EventGrid {
  import opened Wrappers

  type Token = string

  /** The zero time, which an available event carries. */
  const ZERO_TIME := 0

  /** An event on its way through a subscription; `id` is its position in the backlog. */
  datatype Delivery = Delivery(id: nat, event: string, count: nat, deadline: int)

  datatype Subscription = Subscription(available: seq<Delivery>, locked: map<Token, Delivery>)

  datatype Topic = Topic(backlog: seq<string>, subs: map<string, Subscription>)

  datatype Received = Received(token: Token, count: nat, id: nat, event: string)

  datatype LockResult = LockResult(succeeded: seq<Token>, failed: seq<Token>)

  // ---- What the operations do to a topic ----

  function Seeded(backlog: seq<string>): Subscription {
    Subscription(seq(|backlog|, i requires 0 <= i < |backlog| => Delivery(i, backlog[i], 0, ZERO_TIME)), map[])
  }

  function WithSub(t: Topic, name: string): (r: Topic)
    ensures name in r.subs && r.backlog == t.backlog
  {
    if name in t.subs then t else t.(subs := t.subs[name := Seeded(t.backlog)])
  }

  function Appended(sub: Subscription, id: nat, event: string): Subscription {
    sub.(available := sub.available + [Delivery(id, event, 0, ZERO_TIME)])
  }

  function PublishOne(t: Topic, event: string): Topic {
    Topic(t.backlog + [event], map name | name in t.subs :: Appended(t.subs[name], |t.backlog|, event))
  }

  function Publish(t: Topic, events: seq<string>): Topic
    decreases |events|
  {
    if events == [] then t else Publish(PublishOne(t, events[0]), events[1..])
  }

  /** Some map-iteration order of the locks that have run out. */
  ghost predicate IsSweep(sub: Subscription, now: int, order: seq<Token>) {
    && (forall i, j | 0 <= i < j < |order| :: order[i] != order[j])
    && (forall tok | tok in order :: tok in sub.locked && now > sub.locked[tok].deadline)
    && (forall tok | tok in sub.locked && now > sub.locked[tok].deadline :: tok in order)
  }

  function ExpireOne(sub: Subscription, tok: Token): Subscription {
    if tok in sub.locked then
      Subscription(sub.available + [sub.locked[tok].(deadline := ZERO_TIME)], sub.locked - {tok})
    else sub
  }

  function Sweep(sub: Subscription, order: seq<Token>): Subscription
    decreases |order|
  {
    if order == [] then sub else Sweep(ExpireOne(sub, order[0]), order[1..])
  }

  function HandOne(sub: Subscription, tok: Token, deadline: int): Subscription
    requires sub.available != []
  {
    var d := sub.available[0];
    Subscription(sub.available[1..], sub.locked[tok := d.(count := d.count + 1, deadline := deadline)])
  }

  function Hand(sub: Subscription, tokens: seq<Token>, deadline: int): (Subscription, seq<Received>)
    decreases |tokens|
  {
    if tokens == [] || sub.available == [] then (sub, [])
    else
      var d := sub.available[0];
      var r := Hand(HandOne(sub, tokens[0], deadline), tokens[1..], deadline);
      (r.0, [Received(tokens[0], d.count + 1, d.id, d.event)] + r.1)
  }

  function EffectiveMax(max: int): nat {
    if max <= 0 then 1 else max
  }

  function ResolveOne(sub: Subscription, tok: Token, release: bool): Subscription
    requires tok in sub.locked
  {
    Subscription(if release then sub.available + [sub.locked[tok]] else sub.available, sub.locked - {tok})
  }

  function WithSuccess(tok: Token, r: LockResult): LockResult { r.(succeeded := [tok] + r.succeeded) }

  function WithFailure(tok: Token, r: LockResult): LockResult { r.(failed := [tok] + r.failed) }

  function Resolve(sub: Subscription, tokens: seq<Token>, release: bool): (Subscription, LockResult)
    decreases |tokens|
  {
    if tokens == [] then (sub, LockResult([], []))
    else if tokens[0] in sub.locked then
      var r := Resolve(ResolveOne(sub, tokens[0], release), tokens[1..], release);
      (r.0, WithSuccess(tokens[0], r.1))
    else
      var r := Resolve(sub, tokens[1..], release);
      (r.0, WithFailure(tokens[0], r.1))
  }

  function RenewOne(sub: Subscription, tok: Token, deadline: int): Subscription
    requires tok in sub.locked
  {
    sub.(locked := sub.locked[tok := sub.locked[tok].(deadline := deadline)])
  }

  function Renew(sub: Subscription, tokens: seq<Token>, deadline: int): (Subscription, LockResult)
    decreases |tokens|
  {
    if tokens == [] then (sub, LockResult([], []))
    else if tokens[0] in sub.locked then
      var r := Renew(RenewOne(sub, tokens[0], deadline), tokens[1..], deadline);
      (r.0, WithSuccess(tokens[0], r.1))
    else
      var r := Renew(sub, tokens[1..], deadline);
      (r.0, WithFailure(tokens[0], r.1))
  }

  // ---- What a subscriber saw ----

  datatype Action =
    | Swept(at: int)  // a receive, before it hands anything out
    | Handed(id: nat, token: Token, at: int, deadline: int)
    | Renewed(token: Token, deadline: int)
    | Released(token: Token)
    | Settled(token: Token)

  type Log = seq<Action>

  /** What a token holds and until when, by the subscriber's own record. */
  datatype Claim = Claim(id: nat, deadline: int)

  function Update(before: Option<Claim>, a: Action, tok: Token): Option<Claim> {
    if a.Swept? || a.token != tok then before
    else
      match a
      case Handed(id, _, _, deadline) => Some(Claim(id, deadline))
      case Renewed(_, deadline) => if before.Some? then Some(Claim(before.value.id, deadline)) else None
      case Released(_) => None
      case Settled(_) => None
  }

  function Open(log: Log, tok: Token): Option<Claim> {
    if log == [] then None else Update(Open(log[..|log| - 1], tok), log[|log| - 1], tok)
  }

  /** The same, but a receive ends the claims that have run out by then. */
  function Hold(before: Option<Claim>, a: Action, tok: Token): Option<Claim> {
    if a.Swept? && before.Some? && a.at > before.value.deadline then None else Update(before, a, tok)
  }

  function Held(log: Log, tok: Token): Option<Claim> {
    if log == [] then None else Hold(Held(log[..|log| - 1], tok), log[|log| - 1], tok)
  }

  function SettledIds(log: Log): set<nat> {
    if log == [] then {}
    else
      var before, a := log[..|log| - 1], log[|log| - 1];
      if a.Settled? && Open(before, a.token).Some? then SettledIds(before) + {Open(before, a.token).value.id}
      else SettledIds(before)
  }

  function TimesHanded(log: Log, id: nat): nat {
    if log == [] then 0
    else
      var a := log[|log| - 1];
      TimesHanded(log[..|log| - 1], id) + if a.Handed? && a.id == id then 1 else 0
  }

  /** When id may be handed out at time `at`: no claim on it is still running and it was not settled. */
  ghost predicate Free(log: Log, id: nat, at: int) {
    && id !in SettledIds(log)
    && forall tok | Open(log, tok).Some? && Open(log, tok).value.id == id :: at > Open(log, tok).value.deadline
  }

  /** Everything that was ever handed out was free at that moment. */
  ghost predicate HandedFree(log: Log) {
    log == [] ||
    (var before, a := log[..|log| - 1], log[|log| - 1];
     HandedFree(before) && (a.Handed? ==> Free(before, a.id, a.at)))
  }

  lemma LogStep(log: Log, a: Action)
    ensures forall tok :: Open(log + [a], tok) == Update(Open(log, tok), a, tok)
    ensures forall tok :: Held(log + [a], tok) == Hold(Held(log, tok), a, tok)
    ensures SettledIds(log + [a]) ==
            if a.Settled? && Open(log, a.token).Some? then SettledIds(log) + {Open(log, a.token).value.id}
            else SettledIds(log)
    ensures forall id :: TimesHanded(log + [a], id) == TimesHanded(log, id) + if a.Handed? && a.id == id then 1 else 0
    ensures HandedFree(log + [a]) <==> HandedFree(log) && (a.Handed? ==> Free(log, a.id, a.at))
  {
    assert (log + [a])[..|log|] == log;
  }

  // ---- The invariant of a subscription ----

  predicate Among(s: seq<Delivery>, id: nat) {
    exists i | 0 <= i < |s| :: s[i].id == id
  }

  predicate Locked(m: map<Token, Delivery>, id: nat) {
    exists tok | tok in m :: m[tok].id == id
  }

  /** Each of the n backlog positions is in exactly one place, once: available, locked or settled. */
  ghost predicate OneHome(n: nat, sub: Subscription, settled: set<nat>) {
    && (forall i, j | 0 <= i < j < |sub.available| :: sub.available[i].id != sub.available[j].id)
    && (forall s, t | s in sub.locked && t in sub.locked && s != t :: sub.locked[s].id != sub.locked[t].id)
    && (forall i, t | 0 <= i < |sub.available| && t in sub.locked :: sub.available[i].id != sub.locked[t].id)
    && (forall i | 0 <= i < |sub.available| :: sub.available[i].id !in settled)
    && (forall t | t in sub.locked :: sub.locked[t].id !in settled)
    && (forall id: nat :: id < n <==> Among(sub.available, id) || Locked(sub.locked, id) || id in settled)
  }

  predicate Faithful(backlog: seq<string>, log: Log, d: Delivery) {
    d.id < |backlog| && d.event == backlog[d.id] && d.count == TimesHanded(log, d.id)
  }

  /** What a subscription holds are the backlog's events, each with the number of times it was handed out. */
  ghost predicate AllFaithful(backlog: seq<string>, sub: Subscription, log: Log) {
    && (forall i | 0 <= i < |sub.available| :: Faithful(backlog, log, sub.available[i]))
    && (forall t | t in sub.locked :: Faithful(backlog, log, sub.locked[t]))
  }

  /** A subscriber's running claims are locks, and the store's locks are the subscriber's claims. */
  ghost predicate ClaimsAreLocks(sub: Subscription, log: Log, clock: int) {
    && (forall t | t in sub.locked :: Open(log, t) == Some(Claim(sub.locked[t].id, sub.locked[t].deadline)))
    && (forall t | t !in sub.locked && Open(log, t).Some? :: clock > Open(log, t).value.deadline)
  }

  /** The store's locks are exactly the claims that no receive has found run out. */
  ghost predicate LocksAreHeld(sub: Subscription, log: Log) {
    forall t :: Held(log, t) ==
                if t in sub.locked then Some(Claim(sub.locked[t].id, sub.locked[t].deadline)) else None
  }

  ghost predicate SubInv(backlog: seq<string>, sub: Subscription, log: Log, clock: int) {
    && OneHome(|backlog|, sub, SettledIds(log))
    && AllFaithful(backlog, sub, log)
    && (forall id: nat | id >= |backlog| :: TimesHanded(log, id) == 0)
    && ClaimsAreLocks(sub, log, clock)
    && HandedFree(log)
  }
}
