/**
 Every run of a storage queue, against the record of what its clients saw.
 */
module QueueRuns {
  import opened Sequences
  import opened QueueStore
  import opened Wrappers

  // ---- What clients saw ----

  datatype Action =
    | Sent(id: string, text: string, at: int, expires: Option<int>, visibleFrom: int)
    | Took(id: string, receipt: string, at: int, swept: int, until: int)
    | Peeked(id: string, at: int, swept: int)
    | Moved(id: string, prior: string, receipt: string, text: string, at: int, until: int)
    | Removed(id: string, prior: string)
    | Cleared

  type Log = seq<Action>

  /** What the record says of a message that was neither removed nor cleared. */
  datatype Record = Record(text: string, sent: int, receipt: string, hiddenUntil: int, expires: Option<int>, count: nat)

  function After(before: Option<Record>, a: Action, id: string): Option<Record> {
    if a.Cleared? then None
    else if a.id != id then before
    else
      match a
      case Sent(_, text, at, expires, from) => Some(Record(text, at, "", from, expires, 0))
      case Took(_, r, _, _, until) =>
        if before.None? then None
        else Some(before.value.(receipt := r, hiddenUntil := until, count := before.value.count + 1))
      case Peeked(_, _, _) => before
      case Moved(_, _, r, text, _, until) =>
        if before.None? then None
        else Some(before.value.(receipt := r, hiddenUntil := until, text := if text == "" then before.value.text else text))
      case Removed(_, _) => None
  }

  function Known(log: Log, id: string): Option<Record> {
    if log == [] then None else After(Known(log[..|log| - 1], id), log[|log| - 1], id)
  }

  /** When id was sent, as a position in the record, or -1. */
  function Born(log: Log, id: string): (i: int)
    ensures -1 <= i < |log|
  {
    if log == [] then -1
    else
      var a := log[|log| - 1];
      if a.Sent? && a.id == id then |log| - 1 else Born(log[..|log| - 1], id)
  }

  predicate Timed(a: Action) {
    a.Sent? || a.Took? || a.Peeked? || a.Moved?
  }

  /** No earlier action was at a later time. */
  ghost predicate NotBefore(log: Log, at: int) {
    forall a | a in log && Timed(a) :: a.at <= at
  }

  /** Whether the record allows the next action. */
  ghost predicate Legal(log: Log, a: Action) {
    && (Timed(a) ==> NotBefore(log, a.at))
    && match a
       case Sent(id, _, _, _, _) => Born(log, id) < 0
       case Took(id, _, at, swept, _) => Known(log, id).Some? && MayShow(Known(log, id).value, at, swept)
       case Peeked(id, at, swept) => Known(log, id).Some? && MayShow(Known(log, id).value, at, swept)
       case Moved(id, prior, _, _, _, _) => Known(log, id).Some? && Known(log, id).value.receipt == prior
       case Removed(id, prior) => Known(log, id).Some? && Known(log, id).value.receipt == prior
       case Cleared => true
  }

  predicate MayShow(r: Record, at: int, swept: int) {
    at >= r.hiddenUntil && (r.expires.Some? ==> swept <= r.expires.value)
  }

  ghost predicate LegalLog(log: Log) {
    log == [] || (LegalLog(log[..|log| - 1]) && Legal(log[..|log| - 1], log[|log| - 1]))
  }

  lemma LogStep(log: Log, a: Action)
    ensures forall id :: Known(log + [a], id) == After(Known(log, id), a, id)
    ensures forall id :: Born(log + [a], id) == if a.Sent? && a.id == id then |log| else Born(log, id)
    ensures LegalLog(log + [a]) <==> LegalLog(log) && Legal(log, a)
  {
    assert (log + [a])[..|log|] == log;
  }

  // ---- The invariant ----

  function RecordOf(m: Message): Record {
    Record(m.text, m.inserted, m.receipt, m.nextVisible, m.expires, m.count)
  }

  predicate Holds(ms: seq<Message>, id: string) {
    exists i | 0 <= i < |ms| :: ms[i].id == id
  }

  /** The queue holds messages as the record has them. */
  ghost predicate Recorded(ms: seq<Message>, log: Log) {
    forall i | 0 <= i < |ms| :: Known(log, ms[i].id) == Some(RecordOf(ms[i])) && Born(log, ms[i].id) >= 0
  }

  /** The queue is in the order of sending. */
  ghost predicate InOrder(ms: seq<Message>, log: Log) {
    forall i, j | 0 <= i < j < |ms| :: Born(log, ms[i].id) < Born(log, ms[j].id)
  }

  /** A message the record knows is gone from the queue only when its time to live is over. */
  ghost predicate NothingLost(ms: seq<Message>, log: Log, clock: int) {
    forall id | Known(log, id).Some? && !Holds(ms, id) ::
      Known(log, id).value.expires.Some? && clock > Known(log, id).value.expires.value
  }

  ghost predicate Inv(ms: seq<Message>, log: Log, clock: int) {
    Recorded(ms, log) && InOrder(ms, log) && NothingLost(ms, log, clock) && LegalLog(log) && NotBefore(log, clock)
  }

  // ---- One message at a time ----

  lemma Here(ms: seq<Message>, i: nat)
    requires i < |ms|
    ensures Holds(ms, ms[i].id)
  {
  }

  lemma HoldsUpdate(ms: seq<Message>, i: nat, m: Message)
    requires i < |ms| && m.id == ms[i].id
    ensures forall id :: Holds(ms[i := m], id) <==> Holds(ms, id)
  {
    forall id ensures Holds(ms[i := m], id) <==> Holds(ms, id) {
      forall k | 0 <= k < |ms| ensures ms[i := m][k].id == ms[k].id {}
      if Holds(ms, id) {
        var k :| 0 <= k < |ms| && ms[k].id == id;
        assert ms[i := m][k].id == id;
      }
    }
  }

  lemma HoldsAppend(ms: seq<Message>, more: seq<Message>)
    ensures forall id :: Holds(ms + more, id) <==> Holds(ms, id) || Holds(more, id)
  {
    forall id ensures Holds(ms + more, id) <==> Holds(ms, id) || Holds(more, id) {
      if Holds(ms, id) {
        var k :| 0 <= k < |ms| && ms[k].id == id;
        assert (ms + more)[k].id == id;
      }
      if Holds(more, id) {
        var k :| 0 <= k < |more| && more[k].id == id;
        assert (ms + more)[|ms| + k].id == id;
      }
    }
  }

  /** A message taken or moved. */
  lemma ChangeKeeps(ms: seq<Message>, log: Log, clock: int, i: nat, m: Message, a: Action)
    requires Inv(ms, log, clock) && i < |ms| && m.id == ms[i].id
    requires (a.Took? || a.Moved?) && a.id == m.id && a.at == clock && Legal(log, a)
    requires After(Some(RecordOf(ms[i])), a, m.id) == Some(RecordOf(m))
    ensures Inv(ms[i := m], log + [a], clock)
  {
    hide Known, Born, LegalLog, Holds;
    LogStep(log, a);
    HoldsUpdate(ms, i, m);
    forall k | 0 <= k < |ms| && k != i ensures ms[k].id != m.id {
      assert Born(log, ms[k].id) != Born(log, ms[i].id);
    }
  }

  lemma PeekKeeps(ms: seq<Message>, log: Log, clock: int, a: Action)
    requires Inv(ms, log, clock) && a.Peeked? && a.at == clock && Legal(log, a)
    ensures Inv(ms, log + [a], clock)
  {
    hide Known, Born, LegalLog, Holds;
    LogStep(log, a);
  }

  lemma SendKeeps(ms: seq<Message>, log: Log, clock: int, m: Message)
    requires Inv(ms, log, clock) && Born(log, m.id) < 0 && m.receipt == "" && m.count == 0 && m.inserted == clock
    ensures Inv(ms + [m], log + [Sent(m.id, m.text, clock, m.expires, m.nextVisible)], clock)
  {
    hide Known, Born, LegalLog, Holds;
    var a := Sent(m.id, m.text, clock, m.expires, m.nextVisible);
    LogStep(log, a);
    HoldsAppend(ms, [m]);
    Here([m], 0);
  }

  lemma RemoveKeeps(ms: seq<Message>, log: Log, clock: int, i: nat)
    requires Inv(ms, log, clock) && i < |ms|
    ensures Inv(ms[..i] + ms[i + 1..], log + [Removed(ms[i].id, ms[i].receipt)], clock)
  {
    hide Known, Born, LegalLog, Holds;
    LogStep(log, Removed(ms[i].id, ms[i].receipt));
    var rest := ms[..i] + ms[i + 1..];
    forall k | 0 <= k < |ms| && k != i ensures ms[k].id != ms[i].id {
      assert Born(log, ms[k].id) != Born(log, ms[i].id);
    }
    forall id | Holds(ms, id) && id != ms[i].id ensures Holds(rest, id) {
      HoldsRest(ms, i, id);
    }
  }

  lemma HoldsRest(ms: seq<Message>, i: nat, id: string)
    requires i < |ms| && Holds(ms, id) && id != ms[i].id
    ensures Holds(ms[..i] + ms[i + 1..], id)
  {
    var k :| 0 <= k < |ms| && ms[k].id == id;
    assert (ms[..i] + ms[i + 1..])[if k < i then k else k - 1].id == id;
  }

  lemma ClearKeeps(ms: seq<Message>, log: Log, clock: int)
    requires Inv(ms, log, clock)
    ensures Inv([], log + [Cleared], clock)
  {
    hide Known, Born, LegalLog, Holds;
    LogStep(log, Cleared);
  }

  lemma TickKeeps(ms: seq<Message>, log: Log, clock: int, now: int)
    requires Inv(ms, log, clock) && clock <= now
    ensures Inv(ms, log, now)
  {
    hide Known, Born, LegalLog, Holds;
  }

  // ---- Whole operations ----

  lemma {:induction false} LiveInOrder(ms: seq<Message>, log: Log, swept: int)
    requires InOrder(ms, log)
    ensures InOrder(Live(ms, swept), log)
    decreases |ms|
  {
    hide Born;
    if ms != [] {
      var rest := ms[1..];
      assert forall i | 0 <= i < |rest| :: rest[i] == ms[i + 1];
      LiveInOrder(rest, log, swept);
      FilterFacts(Unexpired(swept), rest);
      forall m | m in Live(rest, swept) ensures Born(log, ms[0].id) < Born(log, m.id) {
        var k :| 0 <= k < |rest| && rest[k] == m;
      }
      PrependInOrder(ms[0], Live(rest, swept), log);
    }
  }

  lemma PrependInOrder(m: Message, ms: seq<Message>, log: Log)
    requires InOrder(ms, log) && forall x | x in ms :: Born(log, m.id) < Born(log, x.id)
    ensures InOrder([m] + ms, log) && InOrder([] + ms, log)
  {
    hide Born;
    assert [] + ms == ms;
  }

  /** Dropping what has expired loses only what the record says has expired. */
  lemma LiveKeeps(ms: seq<Message>, log: Log, swept: int)
    requires Inv(ms, log, swept)
    ensures Inv(Live(ms, swept), log, swept)
  {
    hide Known, Born, LegalLog, InOrder, Live;
    LiveInOrder(ms, log, swept);
    LiveFacts(ms, swept);
    var live := Live(ms, swept);
    forall k | 0 <= k < |live| ensures Known(log, live[k].id) == Some(RecordOf(live[k])) && Born(log, live[k].id) >= 0 {
      assert live[k] in ms;
    }
    forall id | Known(log, id).Some? && !Holds(live, id)
      ensures Known(log, id).value.expires.Some? && swept > Known(log, id).value.expires.value
    {
      if Holds(ms, id) {
        var k :| 0 <= k < |ms| && ms[k].id == id;
        NotHeld(live, ms[k]);
        assert ms[k].Expired(swept);
      }
    }
  }

  lemma NotHeld(ms: seq<Message>, m: Message)
    requires !Holds(ms, m.id)
    ensures m !in ms
  {
  }

  lemma LiveFacts(ms: seq<Message>, swept: int)
    ensures forall m | m in Live(ms, swept) :: m in ms && !m.Expired(swept)
    ensures forall m | m in ms && !m.Expired(swept) :: m in Live(ms, swept)
  {
    FilterFacts(Unexpired(swept), ms);
  }

  function TookActions(taken: seq<Message>, now: int, swept: int, until: int): Log {
    if taken == [] then []
    else [Took(taken[0].id, taken[0].receipt, now, swept, until)] + TookActions(taken[1..], now, swept, until)
  }

  lemma {:induction false} TakeKeeps(pre: seq<Message>, ms: seq<Message>, receipts: seq<string>, log: Log,
                                     now: int, until: int, swept: int)
    requires Inv(pre + ms, log, now) && forall i | 0 <= i < |ms| :: !ms[i].Expired(swept)
    ensures var r := Take(ms, receipts, now, until);
            Inv(pre + r.0, log + TookActions(r.1, now, swept, until), now)
    decreases |ms|
  {
    hide Inv;
    if ms == [] || receipts == [] {
      assert log + [] == log;
    } else if !ms[0].Visible(now) {
      var r := Take(ms[1..], receipts, now, until);
      assert pre + ms == pre + [ms[0]] + ms[1..] && pre + ([ms[0]] + r.0) == pre + [ms[0]] + r.0;
      TakeKeeps(pre + [ms[0]], ms[1..], receipts, log, now, until, swept);
    } else {
      var m := TakenOnce(ms[0], receipts[0], until);
      var a := Took(m.id, m.receipt, now, swept, until);
      var r := Take(ms[1..], receipts[1..], now, until);
      TakeOneKeeps(pre, ms, log, now, m, a);
      TakeKeeps(pre + [m], ms[1..], receipts[1..], log + [a], now, until, swept);
      assert pre + ([m] + r.0) == pre + [m] + r.0 && ([m] + r.1)[1..] == r.1;
      assert log + TookActions([m] + r.1, now, swept, until) == log + [a] + TookActions(r.1, now, swept, until);
    }
  }

  lemma TakeOneKeeps(pre: seq<Message>, ms: seq<Message>, log: Log, now: int, m: Message, a: Action)
    requires Inv(pre + ms, log, now) && ms != [] && ms[0].Visible(now)
    requires a.Took? && a.at == now && !ms[0].Expired(a.swept) && m == TakenOnce(ms[0], a.receipt, a.until) && a.id == m.id
    ensures Inv(pre + [m] + ms[1..], log + [a], now)
  {
    hide InOrder, NothingLost, LegalLog, Known, Born;
    var i := |pre|;
    assert (pre + ms)[i] == ms[0] && (pre + ms)[i := m] == pre + [m] + ms[1..];
    assert Known(log, m.id) == Some(RecordOf(ms[0]));
    ChangeKeeps(pre + ms, log, now, i, m, a);
  }

  function PeekedActions(shown: seq<Message>, now: int, swept: int): Log {
    if shown == [] then [] else [Peeked(shown[0].id, now, swept)] + PeekedActions(shown[1..], now, swept)
  }

  lemma {:induction false} PeeksKeep(ms: seq<Message>, shown: seq<Message>, log: Log, now: int, swept: int)
    requires Inv(ms, log, now) && forall m | m in shown :: m in ms && m.Visible(now) && !m.Expired(swept)
    ensures Inv(ms, log + PeekedActions(shown, now, swept), now)
    decreases |shown|
  {
    hide Inv, Legal;
    if shown == [] {
      assert log + [] == log;
    } else {
      var a := Peeked(shown[0].id, now, swept);
      assert shown[0] in shown;
      MayPeek(ms, log, now, swept, shown[0]);
      PeekKeeps(ms, log, now, a);
      PeeksKeep(ms, shown[1..], log + [a], now, swept);
      assert log + PeekedActions(shown, now, swept) == log + [a] + PeekedActions(shown[1..], now, swept);
    }
  }

  lemma MayPeek(ms: seq<Message>, log: Log, now: int, swept: int, m: Message)
    requires Inv(ms, log, now) && m in ms && m.Visible(now) && !m.Expired(swept)
    ensures Legal(log, Peeked(m.id, now, swept))
  {
    hide InOrder, NothingLost, LegalLog, Known, Born, NotBefore;
    var k :| 0 <= k < |ms| && ms[k] == m;
    assert Known(log, ms[k].id) == Some(RecordOf(ms[k]));
  }

  // ---- Runs ----

  datatype World = World(ms: seq<Message>, log: Log, clock: int)

  /** Every call sweeps at one reading of the clock and acts at another. */
  datatype Step =
    | Enqueue(id: string, text: string, delay: int, ttl: int, swept: int, now: int)
    | Dequeue(timeout: int, receipts: seq<string>, swept: int, now: int)
    | Peek(num: int, swept: int, now: int)
    | Delete(id: string, receipt: string, swept: int, now: int)
    | Update(id: string, receipt: string, text: string, timeout: int, next: string, swept: int, now: int)
    | Clear(swept: int, now: int)

  /** The clock does not go back and the random ids are new. */
  ghost predicate Enabled(w: World, s: Step) {
    w.clock <= s.swept <= s.now && (s.Enqueue? ==> Born(w.log, s.id) < 0)
  }

  /** A message lives as long as it was sent for, seven days if that was not said, and for ever if it was negative. */
  function TimeToLive(ttl: int, now: int): Option<int> {
    if ttl < 0 then None else Some(now + if ttl == 0 then 604_800_000_000_000 else ttl)
  }

  function Next(w: World, s: Step): World {
    var ms := Live(w.ms, s.swept);
    match s
    case Enqueue(id, text, delay, ttl, _, now) =>
      var m := NewMessage(id, text, now, delay, ttl);
      World(ms + [m], w.log + [Sent(id, text, now, TimeToLive(ttl, now), now + delay)], now)
    case Dequeue(timeout, receipts, swept, now) =>
      var (rest, out) := Take(ms, receipts, now, now + timeout);
      World(rest, w.log + TookActions(out, now, swept, now + timeout), now)
    case Peek(num, swept, now) =>
      World(ms, w.log + PeekedActions(First(Visible(ms, now), num), now, swept), now)
    case Delete(id, receipt, _, now) =>
      World(Deleted(ms, id, receipt), if Check(ms, id, receipt).Done? then w.log + [Removed(id, receipt)] else w.log, now)
    case Update(id, receipt, text, timeout, next, _, now) =>
      World(Updated(ms, id, receipt, text, next, now + timeout),
            if Check(ms, id, receipt).Done? then w.log + [Moved(id, receipt, next, text, now, now + timeout)] else w.log,
            now)
    case Clear(_, now) => World([], w.log + [Cleared], now)
  }

  ghost predicate IsRun(w: World, steps: seq<Step>, w': World)
    decreases |steps|
  {
    if steps == [] then w == w' else Enabled(w, steps[0]) && IsRun(Next(w, steps[0]), steps[1..], w')
  }

  lemma FirstFacts(ms: seq<Message>, num: int, now: int)
    ensures forall m | m in First(Visible(ms, now), num) :: m in ms && m.Visible(now)
  {
    FilterFacts(VisibleAt(now), ms);
    forall m | m in First(Visible(ms, now), num) ensures m in Visible(ms, now) {}
  }

  lemma InvStep(w: World, s: Step)
    requires Inv(w.ms, w.log, w.clock) && Enabled(w, s)
    ensures Inv(Next(w, s).ms, Next(w, s).log, Next(w, s).clock)
  {
    hide Inv, Live, Take, TookActions, PeekedActions, First, Visible, Born;
    TickKeeps(w.ms, w.log, w.clock, s.swept);
    LiveKeeps(w.ms, w.log, s.swept);
    LiveFacts(w.ms, s.swept);
    var ms := Live(w.ms, s.swept);
    TickKeeps(ms, w.log, s.swept, s.now);
    match s
    case Enqueue(id, text, delay, ttl, _, now) => SendKeeps(ms, w.log, now, NewMessage(id, text, now, delay, ttl));
    case Dequeue(timeout, receipts, swept, now) =>
      assert [] + ms == ms && [] + Take(ms, receipts, now, now + timeout).0 == Take(ms, receipts, now, now + timeout).0;
      TakeKeeps([], ms, receipts, w.log, now, now + timeout, swept);
    case Peek(num, swept, now) =>
      FirstFacts(ms, num, now);
      PeeksKeep(ms, First(Visible(ms, now), num), w.log, now, swept);
    case Delete(id, receipt, _, now) =>
      if Check(ms, id, receipt).Done? {
        RemoveKeeps(ms, w.log, now, Find(ms, id));
      }
    case Update(id, receipt, text, timeout, next, _, now) =>
      if Check(ms, id, receipt).Done? {
        UpdateKeeps(ms, w.log, Find(ms, id), text, next, now, now + timeout);
      }
    case Clear(_, now) => ClearKeeps(ms, w.log, now);
  }

  lemma UpdateKeeps(ms: seq<Message>, log: Log, i: nat, text: string, next: string, now: int, until: int)
    requires Inv(ms, log, now) && i < |ms|
    ensures Inv(ms[i := UpdatedMessage(ms[i], text, next, until)],
                log + [Moved(ms[i].id, ms[i].receipt, next, text, now, until)], now)
  {
    hide InOrder, NothingLost, LegalLog, Known, Born;
    assert Known(log, ms[i].id) == Some(RecordOf(ms[i]));
    ChangeKeeps(ms, log, now, i, UpdatedMessage(ms[i], text, next, until),
                Moved(ms[i].id, ms[i].receipt, next, text, now, until));
  }

  lemma {:induction false} RunKeeps(w: World, steps: seq<Step>, w': World)
    requires Inv(w.ms, w.log, w.clock) && IsRun(w, steps, w')
    ensures Inv(w'.ms, w'.log, w'.clock)
    decreases |steps|
  {
    hide Inv, Enabled, Next;
    if steps != [] {
      InvStep(w, steps[0]);
      RunKeeps(Next(w, steps[0]), steps[1..], w');
    }
  }

  /**
   In every reachable state the queue holds, in the order of sending, messages exactly as the clients' record has them;
   a recorded message is missing only once its time to live is over; and every action in the record was allowed by
   the record before it: nothing was shown while hidden or after it expired, and only the latest receipt moved or
   removed anything.
   */
  lemma Safety(clock: int, steps: seq<Step>, w: World)
    requires IsRun(World([], [], clock), steps, w)
    ensures Recorded(w.ms, w.log) && InOrder(w.ms, w.log) && NothingLost(w.ms, w.log, w.clock) && LegalLog(w.log)
  {
    hide IsRun, Recorded, InOrder, LegalLog;
    InvInitially(clock);
    RunKeeps(World([], [], clock), steps, w);
  }

  lemma InvInitially(clock: int)
    ensures Inv([], [], clock)
  {
  }

  // ---- In a client's words ----

  lemma {:induction false} LegalAt(log: Log, j: nat)
    requires LegalLog(log) && j < |log|
    ensures LegalLog(log[..j]) && Legal(log[..j], log[j])
    decreases |log|
  {
    hide Legal;
    if j < |log| - 1 {
      LegalAt(log[..|log| - 1], j);
      assert log[..|log| - 1][..j] == log[..j];
    }
  }

  lemma {:induction false} BornAt(log: Log, i: nat)
    requires i < |log| && log[i].Sent?
    ensures Born(log, log[i].id) >= i
    decreases |log|
  {
    if i < |log| - 1 {
      BornAt(log[..|log| - 1], i);
    }
  }

  lemma {:induction false} BornIfKnown(log: Log, id: string)
    requires Known(log, id).Some?
    ensures Born(log, id) >= 0
    decreases |log|
  {
    if After(None, log[|log| - 1], id).None? {
      BornIfKnown(log[..|log| - 1], id);
    }
  }

  /**
   While it is only taken and peeked at, a message taken until some time is hidden until then, or the
   clock is already there.
   */
  lemma {:induction false} HiddenSince(log: Log, i: nat, j: nat)
    requires LegalLog(log) && i < j <= |log| && log[i].Took?
    requires forall k | i < k < j && log[k].Moved? :: log[k].id != log[i].id
    ensures Known(log[..j], log[i].id).Some? ==>
              Known(log[..j], log[i].id).value.hiddenUntil >= log[i].until || Reached(log[..j], log[i].until)
    decreases j
  {
    hide Known, LegalLog, Born;
    var id, a := log[i].id, log[j - 1];
    assert log[..j] == log[..j - 1] + [a];
    LogStep(log[..j - 1], a);
    LegalAt(log, j - 1);
    if i < j - 1 {
      HiddenSince(log, i, j - 1);
      if Reached(log[..j - 1], log[i].until) {
        ReachedGrows(log[..j - 1], a, log[i].until);
      }
      if Timed(a) && a.at >= log[i].until {
        HereReached(log[..j], j - 1, log[i].until);
      }
      SentOnce(log, i, j - 1);
    }
  }

  predicate Issues(a: Action) {
    a.Took? || a.Moved?
  }

  /** What was taken or moved was sent before, and is not sent again. */
  lemma SentOnce(log: Log, i: nat, k: nat)
    requires LegalLog(log) && i < k < |log| && Issues(log[i])
    ensures log[k].Sent? ==> log[k].id != log[i].id
  {
    var id := log[i].id;
    hide *;
    IssuedKnown(log, i);
    BornIfKnown(log[..i], id);
    BornGrows(log[..i], log[i..k], id);
    PrefixSplits(log, i, k);
    SentNew(log, k);
  }

  lemma PrefixSplits<T>(s: seq<T>, i: nat, k: nat)
    requires i <= k <= |s|
    ensures s[..i] + s[i..k] == s[..k]
  {
  }

  lemma IssuedKnown(log: Log, i: nat)
    requires LegalLog(log) && i < |log| && Issues(log[i])
    ensures Known(log[..i], log[i].id).Some?
  {
    hide Known, LegalLog;
    LegalAt(log, i);
  }

  lemma SentNew(log: Log, k: nat)
    requires LegalLog(log) && k < |log|
    ensures log[k].Sent? ==> Born(log[..k], log[k].id) < 0
  {
    hide Born, LegalLog;
    LegalAt(log, k);
  }

  /** Some action happened at or after t. */
  ghost predicate Reached(log: Log, t: int) {
    exists a :: a in log && Timed(a) && a.at >= t
  }

  lemma ReachedGrows(log: Log, a: Action, t: int)
    requires Reached(log, t)
    ensures Reached(log + [a], t)
  {
    var b :| b in log && Timed(b) && b.at >= t;
    assert b in log + [a];
  }

  lemma HereReached(log: Log, k: nat, t: int)
    requires k < |log| && Timed(log[k]) && log[k].at >= t
    ensures Reached(log, t)
  {
    assert log[k] in log;
  }

  lemma {:induction false} BornGrows(log: Log, more: Log, id: string)
    requires Born(log, id) >= 0
    ensures Born(log + more, id) >= 0
    decreases |more|
  {
    if more == [] {
      assert log + more == log;
    } else {
      var init := log + more[..|more| - 1];
      BornGrows(log, more[..|more| - 1], id);
      assert log + more == init + [more[|more| - 1]];
      LogStep(init, more[|more| - 1]);
    }
  }

  /**
   A message taken at t for a timeout v is shown by no dequeue or peek before t + v, unless an update moves it first.
   */
  lemma HiddenWhileTaken(clock: int, steps: seq<Step>, w: World, i: nat, j: nat)
    requires IsRun(World([], [], clock), steps, w)
    requires i < j < |w.log| && w.log[i].Took? && (w.log[j].Took? || w.log[j].Peeked?) && w.log[j].id == w.log[i].id
    requires forall k | i < k < j && w.log[k].Moved? :: w.log[k].id != w.log[i].id
    ensures w.log[j].at >= w.log[i].until
  {
    hide IsRun, Known, LegalLog, Recorded, InOrder, NothingLost;
    Safety(clock, steps, w);
    LegalAt(w.log, j);
    HiddenSince(w.log, i, j);
  }

  predicate Outlived(r: Record, swept: int) {
    r.expires.Some? && swept > r.expires.value
  }

  /**
   A delete or an update succeeds exactly when, by the clients' record, the message is still there, its time to live is
   not over and the receipt is the last one given out for it (the empty one if it was never taken).
   */
  lemma OnlyLatestReceipt(clock: int, steps: seq<Step>, w: World, id: string, receipt: string, swept: int)
    requires IsRun(World([], [], clock), steps, w) && w.clock <= swept
    ensures var r := Known(w.log, id);
            Check(Live(w.ms, swept), id, receipt) ==
            if r.None? || Outlived(r.value, swept) then MessageNotFound
            else if r.value.receipt != receipt then ReceiptMismatch
            else Done
  {
    hide IsRun, Live, InOrder, LegalLog, Known;
    InvInitially(clock);
    RunKeeps(World([], [], clock), steps, w);
    TickKeeps(w.ms, w.log, w.clock, swept);
    LiveKeeps(w.ms, w.log, swept);
    LiveFacts(w.ms, swept);
    var ms := Live(w.ms, swept);
    var i := Find(ms, id);
    if i < |ms| {
      assert Known(w.log, ms[i].id) == Some(RecordOf(ms[i])) && ms[i] in ms;
    } else {
      assert !Holds(ms, id);
    }
  }

  /** The random receipts differ. */
  ghost predicate ReceiptsDiffer(log: Log) {
    forall i, j | 0 <= i < j < |log| && Issues(log[i]) && Issues(log[j]) :: log[i].receipt != log[j].receipt
  }

  /** The receipt on record was given out at or after any position that gave one out. */
  lemma {:induction false} ReceiptOrigin(log: Log, j: nat) returns (k: nat)
    requires j < |log| && Issues(log[j]) && Known(log, log[j].id).Some?
    requires forall i | j < i < |log| && log[i].Sent? :: log[i].id != log[j].id
    ensures j <= k < |log| && Issues(log[k]) && Known(log, log[j].id).value.receipt == log[k].receipt
    decreases |log|
  {
    var a := log[|log| - 1];
    if (Issues(a) && a.id == log[j].id) || j == |log| - 1 {
      k := |log| - 1;
    } else {
      k := ReceiptOrigin(log[..|log| - 1], j);
    }
  }

  /** Once a message was taken or moved again, its earlier receipts neither delete nor update it. */
  lemma StaleReceiptFails(clock: int, steps: seq<Step>, w: World, i: nat, j: nat, swept: int)
    requires IsRun(World([], [], clock), steps, w) && w.clock <= swept && ReceiptsDiffer(w.log)
    requires i < j < |w.log| && Issues(w.log[i]) && Issues(w.log[j]) && w.log[i].id == w.log[j].id
    ensures !Check(Live(w.ms, swept), w.log[i].id, w.log[i].receipt).Done?
  {
    hide IsRun, Live, InOrder, LegalLog, Known, Recorded, NothingLost, Check, NotBefore;
    var id := w.log[i].id;
    OnlyLatestReceipt(clock, steps, w, id, w.log[i].receipt, swept);
    Safety(clock, steps, w);
    if Known(w.log, id).Some? {
      forall k | j < k < |w.log| && w.log[k].Sent? ensures w.log[k].id != id {
        SentOnce(w.log, i, k);
      }
      var k := ReceiptOrigin(w.log, j);
    }
  }

  /** A message never taken has the empty receipt, so a delete with no receipt at all removes it. */
  lemma EmptyReceiptDeletes(clock: int, id: string, text: string)
    ensures var send, delete := Enqueue(id, text, 0, 0, clock, clock), Delete(id, "", clock, clock);
            var w := Next(World([], [], clock), send);
            && IsRun(World([], [], clock), [send], w) && |w.ms| == 1
            && Enabled(w, delete) && Check(Live(w.ms, clock), id, "") == Done && Next(w, delete).ms == []
  {
    var m := NewMessage(id, text, clock, 0, 0);
    var send := Enqueue(id, text, 0, 0, clock, clock);
    assert Live([], clock) == [] && [] + [m] == [m];
    FilterOne(Unexpired(clock), m);
    assert [send][1..] == [];
    OneFound(m);
  }

  lemma OneFound(m: Message)
    requires m.receipt == ""
    ensures Check([m], m.id, "") == Done && Deleted([m], m.id, "") == []
  {
  }

  /**
   A dequeue returns messages as they were sent: with the text last written to them, the time they were
   sent at, the number of times they were taken, this one included, and the receipts and hiding asked for.
   */
  lemma DequeueReturns(clock: int, steps: seq<Step>, w: World, timeout: int, receipts: seq<string>, swept: int, now: int,
                       k: nat)
    requires IsRun(World([], [], clock), steps, w) && Enabled(w, Dequeue(timeout, receipts, swept, now))
    requires k < |Take(Live(w.ms, swept), receipts, now, now + timeout).1|
    ensures var m := Take(Live(w.ms, swept), receipts, now, now + timeout).1[k];
            && k < |receipts| && Known(w.log, m.id).Some?
            && var r := Known(w.log, m.id).value;
               && m.text == r.text && m.inserted == r.sent && m.expires == r.expires && m.count == r.count + 1
               && m.receipt == receipts[k] && m.nextVisible == now + timeout && MayShow(r, now, swept)
  {
    hide IsRun, Live, InOrder, LegalLog, Known, NothingLost, Take, First, Visible;
    Safety(clock, steps, w);
    var ms := Live(w.ms, swept);
    LiveFacts(w.ms, swept);
    TakeFirst(ms, receipts, now, now + timeout);
    FirstFacts(ms, |receipts|, now);
    var chosen := First(Visible(ms, now), |receipts|);
    assert chosen[k] in ms;
    var i :| 0 <= i < |w.ms| && w.ms[i] == chosen[k];
    assert Known(w.log, w.ms[i].id) == Some(RecordOf(w.ms[i]));
  }

  /** And it returns, if asked for enough, every message the record allows to be shown. */
  lemma DequeueFindsAll(clock: int, steps: seq<Step>, w: World, timeout: int, receipts: seq<string>, swept: int, now: int,
                        id: string)
    requires IsRun(World([], [], clock), steps, w) && Enabled(w, Dequeue(timeout, receipts, swept, now))
    requires Known(w.log, id).Some? && MayShow(Known(w.log, id).value, now, swept) && |receipts| >= |w.ms|
    ensures Holds(Take(Live(w.ms, swept), receipts, now, now + timeout).1, id)
  {
    hide IsRun, Live, InOrder, LegalLog, Known, Take, First, Filter;
    Safety(clock, steps, w);
    assert Holds(w.ms, id);
    var i :| 0 <= i < |w.ms| && w.ms[i].id == id;
    assert Known(w.log, w.ms[i].id) == Some(RecordOf(w.ms[i]));
    var ms := Live(w.ms, swept);
    LiveFacts(w.ms, swept);
    assert w.ms[i] in ms;
    FilterFacts(VisibleAt(now), ms);
    var shown := Visible(ms, now);
    assert w.ms[i] in shown;
    LiveShorter(w.ms, swept);
    AllOfThem(shown, |receipts|);
    TakeFirst(ms, receipts, now, now + timeout);
    var k :| 0 <= k < |shown| && shown[k] == w.ms[i];
    var out := Take(ms, receipts, now, now + timeout).1;
    assert out[k] == TakenOnce(shown[k], receipts[k], now + timeout);
    assert out[k].id == id;
  }

  lemma LiveShorter(ms: seq<Message>, swept: int)
    ensures |Live(ms, swept)| <= |ms|
  {
  }

  lemma AllOfThem<T>(s: seq<T>, num: int)
    requires num >= |s|
    ensures First(s, num) == s
  {
  }
}
