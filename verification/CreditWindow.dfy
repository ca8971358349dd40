/**
 Flow control of a link on which the client sends: the client, the server's link and
 the two directions of the connection between them. The client computes its link credit
 from the last flow as section 2.6.7 of AMQP 1.0 says, and the session window from the
 same flow as section 2.5.6 says, in 32-bit serial arithmetic.
 */
module CreditWindow {
  import opened Bytes
  import opened Link

  /** What the server grants the session in begin and repeats in every flow, with next-incoming-id 0. */
  const SESSION_WINDOW: uint32 := 65535

  /** What the server sends back, in order: dispositions carry the number of the transfer they settle. */
  datatype Reply = Flow(deliveryCount: uint32, credit: uint32) | Disposition(n: nat)

  /**
   `sent`, `arrived` and `settled` count the deliveries the client sent to the end, the server took
   and the client saw settled; those between `arrived` and `sent` are in flight. A delivery is one or
   more transfers: `frames` counts them, `first` is the transfer-id of the first and `window` is the
   client's remote-incoming-window.
   */
  datatype World = World(frames: nat, sent: nat, credit: uint32, settled: nat, arrived: nat, link: LinkState,
                         replies: seq<Reply>, first: uint32, window: uint32)

  /**
   The client sends a transfer with more to follow, or the last of a delivery; the server has taken a
   whole delivery; the client takes a reply. A transfer with more to follow only fills the server's buffer.
   */
  datatype Step = Chunk | Send | Arrive | Learn

  /** After the attach: the server has granted the initial window, the client does not know yet. */
  function Init(address: string, first: uint32): World {
    World(0, 0, 0, 0, 0, Fresh(address, true, false), [Flow(0, SENDER_INITIAL_CREDIT)], first, SESSION_WINDOW)
  }

  predicate Enabled(w: World, s: Step) {
    match s
    case Chunk => w.credit > 0 && w.window > 0
    case Send => w.credit > 0 && w.window > 0
    case Arrive => w.arrived < w.sent
    case Learn => w.replies != []
  }

  /** What the server answers to a completed transfer: a flow when the window is due, then the disposition. */
  function Answers(l: LinkState, n: nat): seq<Reply> {
    (if Replenishes(l) then [Flow(Recorded(l).received, SENDER_INITIAL_CREDIT)] else []) + [Disposition(n)]
  }

  /** The window after a flow: the flow's next-incoming-id, 0, and its window, less the client's next transfer-id. */
  function SessionWindow(first: uint32, frames: nat): uint32 {
    ToUint32(0 + SESSION_WINDOW - (first as int + frames))
  }

  function Next(w: World, s: Step): World
    requires Enabled(w, s)
  {
    match s
    case Chunk => w.(frames := w.frames + 1, window := w.window - 1)
    case Send => w.(frames := w.frames + 1, sent := w.sent + 1, credit := w.credit - 1, window := w.window - 1)
    case Arrive =>
      w.(arrived := w.arrived + 1, link := Recorded(w.link), replies := w.replies + Answers(w.link, w.arrived + 1))
    case Learn =>
      var rest := w.replies[1..];
      match w.replies[0]
      case Flow(dc, c) =>
        w.(credit := ToUint32(dc as int + c - w.sent), window := SessionWindow(w.first, w.frames), replies := rest)
      case Disposition(_) => w.(settled := w.settled + 1, replies := rest)
  }

  ghost predicate CanRun(w: World, steps: seq<Step>)
    decreases steps
  {
    steps != [] ==> Enabled(w, steps[0]) && CanRun(Next(w, steps[0]), steps[1..])
  }

  ghost function After(w: World, steps: seq<Step>): World
    requires CanRun(w, steps)
    decreases steps
  {
    if steps == [] then w else After(Next(w, steps[0]), steps[1..])
  }

  function Times(steps: seq<Step>, s: Step): nat {
    if steps == [] then 0 else (if steps[0] == s then 1 else 0) + Times(steps[1..], s)
  }

  /** The counters of a run: transfers, deliveries sent, deliveries taken. */
  lemma {:induction false} RunCounts(w: World, steps: seq<Step>)
    requires CanRun(w, steps)
    ensures var w' := After(w, steps);
            && w'.frames == w.frames + Times(steps, Chunk) + Times(steps, Send)
            && w'.sent == w.sent + Times(steps, Send) && w'.arrived == w.arrived + Times(steps, Arrive)
    decreases |steps|
  {
    if steps != [] { RunCounts(Next(w, steps[0]), steps[1..]); }
  }

  // ---- What holds in every state ----

  const T := REPLENISH_THRESHOLD as int

  /** The replies from the one before disposition settled + 1 up to transfer `arrived`. */
  function Remaining(settled: nat, arrived: nat): seq<Reply>
    requires settled <= arrived
    decreases arrived - settled
  {
    if settled == arrived then []
    else FlowBefore(settled + 1) + [Disposition(settled + 1)] + Remaining(settled + 1, arrived)
  }

  function FlowBefore(n: nat): seq<Reply> {
    if n % T == 0 then [Flow(ToUint32(n), SENDER_INITIAL_CREDIT)] else []
  }

  /** What the client has learnt: not even the first flow; all up to disposition `settled`; or one more flow. */
  datatype Position = Start | Level | Ahead

  function Replies(p: Position, settled: nat, arrived: nat): seq<Reply>
    requires if p.Ahead? then settled < arrived else settled <= arrived
  {
    match p
    case Start => [Flow(0, SENDER_INITIAL_CREDIT)] + Remaining(settled, arrived)
    case Level => Remaining(settled, arrived)
    case Ahead => [Disposition(settled + 1)] + Remaining(settled + 1, arrived)
  }

  /** The number of the last transfer the client may send: the last flow's delivery count and its credit. */
  function Limit(p: Position, settled: nat): nat {
    match p
    case Start => 0
    case Level => settled / T * T + 5000
    case Ahead => settled + 1 + 5000
  }

  /** All the session ever admits: what its window is before the first transfer. */
  function Budget(first: uint32): nat {
    SessionWindow(first, 0)
  }

  /** No flow gives back any of the session's window. */
  predicate SessionSpent(w: World, p: Position) {
    w.sent <= w.frames && if p.Start? then w.frames == 0 else w.frames + w.window == Budget(w.first)
  }

  ghost predicate Inv(w: World, p: Position) {
    Linked(w, p) && SessionSpent(w, p)
  }

  ghost predicate Linked(w: World, p: Position) {
    && w.settled <= w.arrived <= w.sent <= Limit(p, w.settled)
    && w.credit == Limit(p, w.settled) - w.sent
    && w.link.received == ToUint32(w.arrived) && w.link.sinceFlow == w.arrived % T
    && (p.Ahead? ==> w.settled < w.arrived && (w.settled + 1) % T == 0)
    && w.replies == Replies(p, w.settled, w.arrived)
  }

  lemma {:induction false} RemainingGrows(settled: nat, arrived: nat)
    requires settled <= arrived
    ensures Remaining(settled, arrived + 1) ==
            Remaining(settled, arrived) + (FlowBefore(arrived + 1) + [Disposition(arrived + 1)])
    decreases arrived - settled
  {
    if settled == arrived {
      assert Remaining(arrived + 1, arrived + 1) == [];
    } else {
      RemainingGrows(settled + 1, arrived);
    }
  }

  lemma NextInPeriod(n: nat)
    ensures (n + 1) % T == if n % T + 1 == T then 0 else n % T + 1
    ensures (n + 1) / T * T == if n % T + 1 == T then n + 1 else n / T * T
  {
  }

  lemma NextWraps(n: nat)
    ensures ToUint32(ToUint32(n) as int + 1) == ToUint32(n + 1)
  {
  }

  lemma AnswersAre(l: LinkState, n: nat)
    requires l.received == ToUint32(n) && l.sinceFlow == n % T
    ensures Answers(l, n + 1) == FlowBefore(n + 1) + [Disposition(n + 1)]
    ensures Recorded(l).received == ToUint32(n + 1) && Recorded(l).sinceFlow == (n + 1) % T
  {
    NextInPeriod(n);
    NextWraps(n);
    hide ToUint32;
    assert ToUint32(l.sinceFlow as int + 1) == n % T + 1 by { SmallUnwrapped(n % T + 1); }
  }

  lemma SmallUnwrapped(n: nat)
    requires n <= T
    ensures ToUint32(n) == n
  {
  }

  /** The client's 32-bit computation of its credit gives the difference it stands for. */
  lemma SerialCredit(n: nat, sent: nat)
    requires sent <= n + 5000 && n <= sent + 5000
    ensures ToUint32(ToUint32(n) + 5000 - sent) == n + 5000 - sent
  {
  }

  function PositionAfter(w: World, p: Position, s: Step): Position {
    if !s.Learn? then p
    else if p == Level && (w.settled + 1) % T == 0 then Ahead
    else Level
  }

  lemma InvStep(w: World, p: Position, s: Step)
    requires Inv(w, p) && Enabled(w, s)
    ensures Inv(Next(w, s), PositionAfter(w, p, s)) && Next(w, s).first == w.first
  {
    SessionStep(w, p, s);
    match s
    case Chunk =>
    case Send =>
    case Arrive =>
      hide Answers;
      AnswersAre(w.link, w.arrived);
      RemainingGrows(if p == Ahead then w.settled + 1 else w.settled, w.arrived);
    case Learn => LearnStep(w, p);
  }

  lemma LearnStep(w: World, p: Position)
    requires Linked(w, p) && w.replies != []
    ensures Linked(Next(w, Learn), PositionAfter(w, p, Learn))
  {
    var n := w.settled + 1;
    NextInPeriod(w.settled);
    hide Answers;
    if p == Start {
      SerialCredit(0, w.sent);
    } else if p == Level {
      assert w.settled < w.arrived;
      if n % T == 0 { SerialCredit(n, w.sent); }
    }
  }

  lemma SessionStep(w: World, p: Position, s: Step)
    requires Inv(w, p) && Enabled(w, s)
    ensures SessionSpent(Next(w, s), PositionAfter(w, p, s))
  {
    hide Answers, Remaining, FlowBefore;
    WindowAfterFlow(w.first, w.frames);
    if s.Learn? && p == Start {
      assert w.replies[0] == Flow(0, SENDER_INITIAL_CREDIT);
    }
  }

  lemma WindowAfterFlow(first: uint32, frames: nat)
    requires frames <= Budget(first)
    ensures SessionWindow(first, frames) == Budget(first) - frames
  {
  }

  lemma {:induction false} Safety(w: World, p: Position, steps: seq<Step>) returns (p': Position)
    requires Inv(w, p) && CanRun(w, steps)
    ensures Inv(After(w, steps), p') && After(w, steps).first == w.first
    decreases steps
  {
    if steps == [] {
      p' := p;
    } else {
      hide Inv, Next, Enabled;
      InvStep(w, p, steps[0]);
      p' := Safety(Next(w, steps[0]), PositionAfter(w, p, steps[0]), steps[1..]);
    }
  }

  lemma InitInv(address: string, first: uint32)
    ensures Inv(Init(address, first), Start)
  {
  }

  /** The client never has more than the initial window on its way to the server. */
  lemma WindowHolds(address: string, first: uint32, steps: seq<Step>)
    requires CanRun(Init(address, first), steps)
    ensures var w := After(Init(address, first), steps); w.sent - w.arrived <= 5000
  {
    InitInv(address, first);
    var p := Safety(Init(address, first), Start, steps);
  }

  /** With nothing in flight either way the client holds more than half the window of link credit. */
  lemma NeverOutOfCredit(address: string, first: uint32, steps: seq<Step>)
    requires CanRun(Init(address, first), steps)
    ensures var w := After(Init(address, first), steps); w.arrived == w.sent && w.replies == [] ==> w.credit > 2500
  {
    InitInv(address, first);
    var p := Safety(Init(address, first), Start, steps);
  }

  ghost predicate Stalled(w: World) {
    forall s :: !Enabled(w, s)
  }

  /**
   The pair stalls, no step being left to either side, exactly when everything in flight has arrived
   and the client has sent as many transfers as the session ever admits, be it in the middle of a delivery.
   */
  lemma StallsExactly(address: string, first: uint32, steps: seq<Step>)
    requires CanRun(Init(address, first), steps)
    ensures var w := After(Init(address, first), steps);
            && w.sent <= w.frames <= Budget(first)
            && (Stalled(w) <==> w.replies == [] && w.arrived == w.sent && w.frames == Budget(first))
  {
    InitInv(address, first);
    var p := Safety(Init(address, first), Start, steps);
    NeverOutOfCredit(address, first, steps);
    var w := After(Init(address, first), steps);
    if w.replies != [] {
      assert Enabled(w, Learn);
    } else if w.arrived < w.sent {
      assert Enabled(w, Arrive);
    } else if w.frames < Budget(first) {
      assert Enabled(w, Send);
    }
  }

  /** How many steps the pair has left at most. */
  function StepsLeft(w: World): int {
    4 * (Budget(w.first) - w.frames) + 3 * (w.sent - w.arrived) + |w.replies|
  }

  lemma OneLess(w: World, p: Position, s: Step)
    requires Inv(w, p) && Enabled(w, s)
    ensures 0 <= StepsLeft(Next(w, s)) < StepsLeft(w)
  {
    InvStep(w, p, s);
    hide Remaining, Budget;
  }

  lemma {:induction false} RunEnds(w: World, p: Position, steps: seq<Step>)
    requires Inv(w, p) && CanRun(w, steps)
    ensures |steps| <= StepsLeft(w)
    decreases steps
  {
    hide Inv, Next, Enabled, StepsLeft;
    if steps == [] {
      NoneLeft(w, p);
    } else {
      OneLess(w, p, steps[0]);
      InvStep(w, p, steps[0]);
      RunEnds(Next(w, steps[0]), PositionAfter(w, p, steps[0]), steps[1..]);
    }
  }

  lemma NoneLeft(w: World, p: Position)
    requires Inv(w, p)
    ensures 0 <= StepsLeft(w)
  {
  }

  /**
   No flow ever reopens the session's window, so every run is finite and a run that cannot go on is
   stalled: a client that numbers its transfers from 0 has then sent 65535 of them, whatever link credit
   it holds and however few deliveries they make.
   */
  lemma EveryRunEnds(address: string, first: uint32, steps: seq<Step>)
    requires CanRun(Init(address, first), steps)
    ensures |steps| <= 4 * Budget(first) + 1 && Budget(0) == 65535
    ensures var w := After(Init(address, first), steps);
            (forall s :: !CanRun(Init(address, first), steps + [s])) ==> w.frames == Budget(first)
  {
    InitInv(address, first);
    RunEnds(Init(address, first), Start, steps);
    StallsExactly(address, first, steps);
    if forall s :: !CanRun(Init(address, first), steps + [s]) {
      forall s ensures !Enabled(After(Init(address, first), steps), s) {
        assert !CanRun(Init(address, first), steps + [s]);
        OneMore(Init(address, first), steps, s);
      }
    }
  }

  lemma {:induction false} OneMore(w: World, steps: seq<Step>, s: Step)
    requires CanRun(w, steps)
    ensures CanRun(w, steps + [s]) <==> Enabled(After(w, steps), s)
    decreases steps
  {
    hide Enabled, Next;
    if steps == [] {
      assert [s][1..] == [] && [] + [s] == [s];
      NothingToRun(w, s);
    } else {
      OneMore(Next(w, steps[0]), steps[1..], s);
      assert (steps + [s])[1..] == steps[1..] + [s];
    }
  }

  lemma NothingToRun(w: World, s: Step)
    ensures CanRun(w, [s]) <==> Enabled(w, s)
  {
    assert [s][1..] == [];
    if Enabled(w, s) { assert CanRun(Next(w, s), []); }
  }

  /** Whatever has happened, the pair can still run into the stall. */
  lemma {:induction false} StallReachable(w: World, p: Position) returns (w': World)
    requires Inv(w, p)
    ensures Reaches(w, w') && Stalled(w')
    decreases StepsLeft(w)
  {
    hide Inv, Next, Enabled, Reaches, StepsLeft;
    if Stalled(w) {
      w' := w;
      ReachesItself(w);
    } else {
      var s :| Enabled(w, s);
      InvStep(w, p, s);
      OneLess(w, p, s);
      NoneLeft(w, p);
      w' := StallReachable(Next(w, s), PositionAfter(w, p, s));
      ReachesStep(w, s, w');
    }
  }

  /**
   Counted by the dispositions the client has seen, the bound is one more: a flow overtakes
   the disposition of the transfer that caused it, and exactly then may 5001 be unsettled.
   */
  lemma UnsettledBound(address: string, first: uint32, steps: seq<Step>)
    requires CanRun(Init(address, first), steps)
    ensures var w := After(Init(address, first), steps);
            && w.sent - w.settled <= 5001
            && (w.sent - w.settled > 5000 <==>
                  w.credit == 0 && (w.settled + 1) % 2500 == 0 && w.replies != []
                  && w.replies[0] == Disposition(w.settled + 1))
  {
    InitInv(address, first);
    var p := Safety(Init(address, first), Start, steps);
  }

  // ---- That extra transfer is reached ----

  ghost predicate Reaches(w: World, w': World) {
    exists steps :: CanRun(w, steps) && After(w, steps) == w'
  }

  lemma ReachesStep(w: World, s: Step, w': World)
    requires Enabled(w, s) && Reaches(Next(w, s), w')
    ensures Reaches(w, w')
  {
    var steps :| CanRun(Next(w, s), steps) && After(Next(w, s), steps) == w';
    assert ([s] + steps)[1..] == steps;
    assert CanRun(w, [s] + steps);
  }

  lemma {:induction false} RunSends(w: World, p: Position, k: nat) returns (e: World)
    requires Inv(w, p) && k <= w.credit && k <= w.window
    ensures Inv(e, p) && e.first == w.first && e.frames == w.frames + k && e.sent == w.sent + k
    ensures e.settled == w.settled && e.arrived == w.arrived
    ensures forall w' | Reaches(e, w') :: Reaches(w, w')
    decreases k
  {
    if k == 0 {
      e := w;
    } else {
      InvStep(w, p, Send);
      e := RunSends(Next(w, Send), p, k - 1);
      forall w' | Reaches(e, w') ensures Reaches(w, w') { ReachesStep(w, Send, w'); }
    }
  }

  lemma {:induction false} RunArrivals(w: World, p: Position, k: nat) returns (e: World)
    requires Inv(w, p) && w.arrived + k <= w.sent
    ensures Inv(e, p) && e.first == w.first && e.frames == w.frames && e.sent == w.sent
    ensures e.settled == w.settled && e.arrived == w.arrived + k
    ensures forall w' | Reaches(e, w') :: Reaches(w, w')
    decreases k
  {
    if k == 0 {
      e := w;
    } else {
      InvStep(w, p, Arrive);
      e := RunArrivals(Next(w, Arrive), p, k - 1);
      forall w' | Reaches(e, w') ensures Reaches(w, w') { ReachesStep(w, Arrive, w'); }
    }
  }

  lemma {:induction false} RunDispositions(w: World, k: nat) returns (e: World)
    requires Inv(w, Level) && w.settled + k <= w.arrived && w.settled % T + k < T
    ensures Inv(e, Level) && e.first == w.first && e.frames == w.frames && e.sent == w.sent
    ensures e.settled == w.settled + k && e.arrived == w.arrived
    ensures forall w' | Reaches(e, w') :: Reaches(w, w')
    decreases k
  {
    if k == 0 {
      e := w;
    } else {
      InvStep(w, Level, Learn);
      NextInPeriod(w.settled);
      assert w.replies[0] == Disposition(w.settled + 1);
      hide Inv, Reaches, Remaining;
      e := RunDispositions(Next(w, Learn), k - 1);
      forall w' | Reaches(e, w') ensures Reaches(w, w') { ReachesStep(w, Learn, w'); }
    }
  }

  /** Where the session admits so many transfers, some run leaves the client with 5001 it has not seen settled. */
  lemma OvertakenDisposition(address: string, first: uint32) returns (w': World)
    requires Budget(first) >= 7500
    ensures Reaches(Init(address, first), w') && w'.sent - w'.settled == 5001
  {
    hide Reaches;
    var w0 := Init(address, first);
    InitInv(address, first);
    InvStep(w0, Start, Learn);
    var w1 := Next(w0, Learn);
    var w2 := RunSends(w1, Level, 5000);
    var w3 := RunArrivals(w2, Level, 2500);
    var w4 := RunDispositions(w3, 2499);
    InvStep(w4, Level, Learn);
    var w5 := Next(w4, Learn);
    w' := RunSends(w5, Ahead, 2500);
    ReachesItself(w');
    ReachesStep(w4, Learn, w');
    ReachesStep(w0, Learn, w');
  }

  lemma ReachesItself(w: World)
    ensures Reaches(w, w)
  {
    assert CanRun(w, []);
  }
}
