/**
 Incoming frames of one connection: links attached and detached, deliveries split over several
 transfers, and a socket that at some point takes no more writes.
 */
module Transfers {
  import opened Bytes
  import opened Link
  import opened Strings
  import opened Wrappers

  const CBS_ADDRESS := "$cbs"
  const MANAGEMENT := "$management"

  type Key = nat

  /** Handles are unique only within a channel. */
  function LinkKey(channel: uint16, handle: uint32): Key {
    channel * 0x1_0000_0000 + handle
  }

  lemma LinkKeyInjective(c: uint16, h: uint32, c': uint16, h': uint32)
    requires LinkKey(c, h) == LinkKey(c', h')
    ensures c == c' && h == h'
  {
    assert LinkKey(c, h) / 0x1_0000_0000 == c && LinkKey(c', h') / 0x1_0000_0000 == c';
  }

  /** A transfer frame; the delivery-id may be absent, and then reads as 0. */
  datatype Transfer = Transfer(channel: uint16, handle: uint32, id: Option<uint32>, more: bool, payload: bytes) {
    function Key(): Key { LinkKey(channel, handle) }
    function DeliveryId(): uint32 { if id.Some? then id.value else 0 }
  }

  /** What a frame makes the server do, and the link it did it for. */
  datatype Effect =
    | Register(key: Key, address: string)                   // tell the broker of a subscription
    | Attached(key: Key)                                    // echo an attach
    | StartLoop(key: Key, address: string)                  // start a delivery loop
    | Send(key: Key, address: string, msg: bytes)           // hand a message to the broker
    | Authorize(key: Key, msg: bytes)                       // write the answer to a request to the $cbs node
    | Flow(key: Key, deliveryCount: uint32, credit: uint32)
    | Disposition(key: Key, id: uint32)                     // settle one delivery as accepted
    | Detached(key: Key)                                    // echo a detach

  predicate IsWrite(e: Effect) {
    !e.Register? && !e.StartLoop? && !e.Send?
  }

  /**
   `good` is how many more writes the socket takes, None for any number; after a failed one the
   connection is over.
   */
  datatype ConnState = ConnState(links: map<Key, LinkState>, effects: seq<Effect>, good: Option<nat>, alive: bool)

  function EmitOne(c: ConnState, e: Effect): ConnState {
    if !c.alive then c
    else if !IsWrite(e) || c.good.None? then c.(effects := c.effects + [e])
    else if c.good.value == 0 then c.(alive := false)
    else c.(effects := c.effects + [e], good := Some(c.good.value - 1))
  }

  /** The effects of one frame in order, up to a write that fails. */
  function Emit(c: ConnState, es: seq<Effect>): ConnState
    decreases |es|
  {
    if es == [] then c else EmitOne(Emit(c, es[..|es| - 1]), es[|es| - 1])
  }

  /** A frame of the client on one of its sessions. */
  datatype Event =
    | Attach(channel: uint16, handle: uint32, address: string, clientIsSender: bool)
    | Arrive(t: Transfer)
    | Detach(channel: uint16, handle: uint32)

  function OnEvent(c: ConnState, e: Event): ConnState {
    if !c.alive then c
    else
      match e
      case Attach(channel, handle, address, clientIsSender) =>
        OnAttach(c, LinkKey(channel, handle), address, clientIsSender)
      case Arrive(t) => OnTransfer(c, t)
      case Detach(channel, handle) => OnDetach(c, LinkKey(channel, handle))
  }

  function OnAttach(c: ConnState, key: Key, address: string, clientIsSender: bool): ConnState {
    Emit(c.(links := c.links[key := Fresh(address, clientIsSender, address == CBS_ADDRESS)]),
         Attaching(key, address, clientIsSender))
  }

  function Attaching(key: Key, address: string, clientIsSender: bool): seq<Effect> {
    (if !clientIsSender && address != CBS_ADDRESS && Index(address, MANAGEMENT) < 0 then [Register(key, address)] else [])
    + [Attached(key)]
    + if clientIsSender then [Flow(key, 0, SENDER_INITIAL_CREDIT)]
      else if address != CBS_ADDRESS then [StartLoop(key, address)]
      else []
  }

  function OnTransfer(c: ConnState, t: Transfer): ConnState {
    var key := t.Key();
    if key !in c.links then c
    else
      var l := c.links[key];
      if t.more then c.(links := c.links[key := l.(partial := l.partial + t.payload)])
      else Emit(c.(links := c.links[key := Ended(l)]),
                Completing(key, l, l.partial + t.payload, t.DeliveryId(), HasCbsReceiver(c.links, t.channel)))
  }

  /** The client has attached a link on this session over which it gets the answers of the $cbs node. */
  predicate HasCbsReceiver(links: map<Key, LinkState>, channel: uint16) {
    exists k | k in links :: IsCbsReceiver(k, links[k], channel)
  }

  predicate IsCbsReceiver(key: Key, l: LinkState, channel: uint16) {
    l.isCBS && !l.clientIsSender && key / 0x1_0000_0000 == channel
  }

  /** A link after the final frame of a delivery. */
  function Ended(l: LinkState): LinkState {
    var done := l.(partial := []);
    if l.isCBS then done else Recorded(done)
  }

  /** `answer` says whether an answer of the $cbs node has a link to go to. */
  function Completing(key: Key, l: LinkState, msg: bytes, id: uint32, answer: bool): seq<Effect> {
    Completed(key, l, msg, answer) + [Disposition(key, id)]
  }

  function Completed(key: Key, l: LinkState, msg: bytes, answer: bool): seq<Effect> {
    if l.isCBS then if answer then [Authorize(key, msg)] else []
    else [Send(key, l.address, msg)] + Replenishment(key, l)
  }

  function Replenishment(key: Key, l: LinkState): seq<Effect> {
    if Replenishes(l) then [Flow(key, Recorded(l).received, SENDER_INITIAL_CREDIT)] else []
  }

  function OnDetach(c: ConnState, key: Key): ConnState {
    Emit(c.(links := c.links - {key}), [Detached(key)])
  }

  // ---- Reassembly ----

  function Run(c: ConnState, es: seq<Event>): ConnState
    decreases |es|
  {
    if es == [] then c else OnEvent(Run(c, es[..|es| - 1]), es[|es| - 1])
  }

  /** The transfers of one link. */
  function OfLink(es: seq<Event>, key: Key): seq<Transfer>
    decreases |es|
  {
    if es == [] then []
    else
      var e := es[|es| - 1];
      OfLink(es[..|es| - 1], key) + if e.Arrive? && e.t.Key() == key then [e.t] else []
  }

  /** The client neither attaches nor detaches the link meanwhile; other links may come and go. */
  predicate Steady(es: seq<Event>, key: Key) {
    forall i | 0 <= i < |es| && !es[i].Arrive? :: LinkKey(es[i].channel, es[i].handle) != key
  }

  /** The messages the broker received from a link, in order. */
  function Messages(effects: seq<Effect>, key: Key): seq<bytes>
    decreases |effects|
  {
    if effects == [] then []
    else
      var e := effects[|effects| - 1];
      Messages(effects[..|effects| - 1], key) + if e.Send? && e.key == key then [e.msg] else []
  }

  /** The deliveries settled on a link, in order. */
  function Settlements(effects: seq<Effect>, key: Key): seq<uint32>
    decreases |effects|
  {
    if effects == [] then []
    else
      var e := effects[|effects| - 1];
      Settlements(effects[..|effects| - 1], key) + if e.Disposition? && e.key == key then [e.id] else []
  }

  /** A delivery as its sender splits it: the chunks before the last, and the last. */
  datatype Delivery = Delivery(id: uint32, first: seq<Frame>, last: Frame)
  datatype Frame = Frame(id: Option<uint32>, payload: bytes)

  function Content(d: Delivery): bytes {
    Joined(d.first) + d.last.payload
  }

  function Joined(fs: seq<Frame>): bytes
    decreases |fs|
  {
    if fs == [] then [] else Joined(fs[..|fs| - 1]) + fs[|fs| - 1].payload
  }

  /** The frames of one delivery and of several on the link (channel, handle): more is set on all but the last. */
  function FramesOf(channel: uint16, handle: uint32, d: Delivery): seq<Transfer> {
    Chunks(channel, handle, d.first) + [Transfer(channel, handle, d.last.id, false, d.last.payload)]
  }

  function Chunks(channel: uint16, handle: uint32, fs: seq<Frame>): seq<Transfer>
    decreases |fs|
  {
    if fs == [] then []
    else
      var f := fs[|fs| - 1];
      Chunks(channel, handle, fs[..|fs| - 1]) + [Transfer(channel, handle, f.id, true, f.payload)]
  }

  function FramesOfAll(channel: uint16, handle: uint32, ds: seq<Delivery>): seq<Transfer>
    decreases |ds|
  {
    if ds == [] then []
    else FramesOfAll(channel, handle, ds[..|ds| - 1]) + FramesOf(channel, handle, ds[|ds| - 1])
  }

  function Contents(ds: seq<Delivery>): (r: seq<bytes>)
    ensures |r| == |ds| && forall i | 0 <= i < |ds| :: r[i] == Content(ds[i])
  {
    seq(|ds|, i requires 0 <= i < |ds| => Content(ds[i]))
  }

  function LastIds(ds: seq<Delivery>): (r: seq<uint32>)
    ensures |r| == |ds|
    ensures forall i | 0 <= i < |ds| :: r[i] == if ds[i].last.id.Some? then ds[i].last.id.value else 0
  {
    seq(|ds|, i requires 0 <= i < |ds| => if ds[i].last.id.Some? then ds[i].last.id.value else 0)
  }

  /** A link and what it has produced, seen alone. */
  datatype Alone = Alone(partial: bytes, msgs: seq<bytes>, ids: seq<uint32>)

  function View(c: ConnState, key: Key): Alone
    requires key in c.links
  {
    Alone(c.links[key].partial, Messages(c.effects, key), Settlements(c.effects, key))
  }

  function Feed(a: Alone, t: Transfer): Alone {
    if t.more then a.(partial := a.partial + t.payload)
    else Alone([], a.msgs + [a.partial + t.payload], a.ids + [t.DeliveryId()])
  }

  function FeedAll(a: Alone, ts: seq<Transfer>): Alone
    decreases |ts|
  {
    if ts == [] then a else Feed(FeedAll(a, ts[..|ts| - 1]), ts[|ts| - 1])
  }

  lemma {:induction false} FeedAllAppend(a: Alone, ts: seq<Transfer>, us: seq<Transfer>)
    ensures FeedAll(a, ts + us) == FeedAll(FeedAll(a, ts), us)
    decreases |us|
  {
    if us == [] {
      assert ts + us == ts;
    } else {
      var k := |us| - 1;
      assert (ts + us)[..|ts| + k] == ts + us[..k];
      FeedAllAppend(a, ts, us[..k]);
    }
  }

  lemma {:induction false} EffectsAppend(xs: seq<Effect>, ys: seq<Effect>, key: Key)
    ensures Messages(xs + ys, key) == Messages(xs, key) + Messages(ys, key)
    ensures Settlements(xs + ys, key) == Settlements(xs, key) + Settlements(ys, key)
    decreases |ys|
  {
    if ys == [] {
      assert xs + ys == xs;
    } else {
      var k := |ys| - 1;
      assert (xs + ys)[..|xs| + k] == xs + ys[..k];
      EffectsAppend(xs, ys[..k], key);
      var e := ys[k];
      var m, s := if e.Send? && e.key == key then [e.msg] else [], if e.Disposition? && e.key == key then [e.id] else [];
      assert Messages(xs + ys, key) == Messages(xs + ys[..k], key) + m;
      assert Settlements(xs + ys, key) == Settlements(xs + ys[..k], key) + s;
      AppendAssoc(Messages(xs, key), Messages(ys[..k], key), m);
      AppendAssoc(Settlements(xs, key), Settlements(ys[..k], key), s);
    }
  }

  // ---- What one frame emits ----

  lemma {:induction false} EmitFacts(c: ConnState, es: seq<Effect>)
    ensures var c' := Emit(c, es);
            && c'.links == c.links
            && (c'.alive ==> c.alive && c'.effects == c.effects + es)
            && (c.good.None? ==> c'.alive == c.alive && c'.good.None?)
    decreases |es|
  {
    if es == [] {
      assert c.effects + [] == c.effects;
    } else {
      var init, e := es[..|es| - 1], es[|es| - 1];
      EmitFacts(c, init);
      assert es == init + [e] && c.effects + init + [e] == c.effects + (init + [e]);
    }
  }

  /** What was emitted before the failure, if any. */
  lemma {:induction false} EmitPart(c: ConnState, es: seq<Effect>) returns (n: nat)
    ensures n <= |es| && Emit(c, es).effects == c.effects + es[..n]
    ensures c.alive && Emit(c, es).alive ==> n == |es|
    decreases |es|
  {
    if es == [] {
      n := 0;
      assert c.effects + es[..0] == c.effects;
    } else {
      var init, e := es[..|es| - 1], es[|es| - 1];
      n := EmitPart(c, init);
      EmitFacts(c, init);
      assert es[..n] == init[..n];
      if Emit(c, es).effects != Emit(c, init).effects {
        assert es == init + [e] && c.effects + init + [e] == c.effects + es[..|es|];
        n := |es|;
      }
    }
  }

  lemma {:induction false} EmitAppend(c: ConnState, xs: seq<Effect>, ys: seq<Effect>)
    ensures Emit(c, xs + ys) == Emit(Emit(c, xs), ys)
    decreases |ys|
  {
    if ys == [] {
      assert xs + ys == xs;
    } else {
      var k := |ys| - 1;
      assert (xs + ys)[..|xs| + k] == xs + ys[..k];
      EmitAppend(c, xs, ys[..k]);
    }
  }

  lemma AliveBefore(c: ConnState, e: Event)
    requires OnEvent(c, e).alive
    ensures c.alive
  {
  }

  /** One frame changes the view of its own link as if it were alone, and no other. */
  lemma EventAlone(c: ConnState, e: Event, key: Key)
    requires key in c.links && !c.links[key].isCBS && Steady([e], key) && OnEvent(c, e).alive
    ensures var c' := OnEvent(c, e);
            && key in c'.links && !c'.links[key].isCBS
            && View(c', key) == if e.Arrive? && e.t.Key() == key then Feed(View(c, key), e.t) else View(c, key)
  {
    hide Messages, Settlements, Emit, Transfer.Key, Transfer.DeliveryId, Recorded, Attaching, Completing;
    assert e == [e][0];
    match e
    case Attach(channel, handle, address, clientIsSender) =>
      var k := LinkKey(channel, handle);
      EmitFacts(c.(links := c.links[k := Fresh(address, clientIsSender, address == CBS_ADDRESS)]),
                Attaching(k, address, clientIsSender));
      AttachingSilent(k, address, clientIsSender, key);
      EffectsAppend(c.effects, Attaching(k, address, clientIsSender), key);
      assert Messages(c.effects, key) + [] == Messages(c.effects, key);
      assert Settlements(c.effects, key) + [] == Settlements(c.effects, key);
    case Arrive(t) => TransferAlone(c, t, key);
    case Detach(channel, handle) =>
      var k := LinkKey(channel, handle);
      EmitFacts(c.(links := c.links - {k}), [Detached(k)]);
      OneEffect(Detached(k), key);
      EffectsAppend(c.effects, [Detached(k)], key);
      assert Messages(c.effects, key) + [] == Messages(c.effects, key);
      assert Settlements(c.effects, key) + [] == Settlements(c.effects, key);
  }

  lemma AttachingSilent(k: Key, address: string, clientIsSender: bool, key: Key)
    ensures Messages(Attaching(k, address, clientIsSender), key) == []
    ensures Settlements(Attaching(k, address, clientIsSender), key) == []
  {
    hide Messages, Settlements, Index;
    var es := Attaching(k, address, clientIsSender);
    forall i | 0 <= i < |es| ensures !es[i].Send? && !es[i].Disposition? {}
    SilentEffects(es, key);
  }

  lemma {:induction false} SilentEffects(es: seq<Effect>, key: Key)
    requires forall i | 0 <= i < |es| :: !es[i].Send? && !es[i].Disposition?
    ensures Messages(es, key) == [] && Settlements(es, key) == []
    decreases |es|
  {
    if es != [] { SilentEffects(es[..|es| - 1], key); }
  }

  lemma TransferAlone(c: ConnState, t: Transfer, key: Key)
    requires key in c.links && !c.links[key].isCBS && OnTransfer(c, t).alive
    ensures var c' := OnTransfer(c, t);
            && key in c'.links && !c'.links[key].isCBS
            && View(c', key) == if t.Key() == key then Feed(View(c, key), t) else View(c, key)
  {
    hide Messages, Settlements, Emit, Transfer.Key, Transfer.DeliveryId, Recorded, Completing;
    var k := t.Key();
    if k in c.links && !t.more {
      var l := c.links[k];
      var answer := HasCbsReceiver(c.links, t.channel);
      var es := Completing(k, l, l.partial + t.payload, t.DeliveryId(), answer);
      EmitFacts(c.(links := c.links[k := Ended(l)]), es);
      EffectsAppend(c.effects, es, key);
      CompletedEffects(k, l, l.partial + t.payload, t.DeliveryId(), answer, key);
      RecordedKeeps(l.(partial := []));
      assert Messages(c.effects, key) + [] == Messages(c.effects, key);
      assert Settlements(c.effects, key) + [] == Settlements(c.effects, key);
    }
  }

  lemma RecordedKeeps(l: LinkState)
    ensures Recorded(l).partial == l.partial && Recorded(l).isCBS == l.isCBS
  {
  }

  lemma CompletedEffects(k: Key, l: LinkState, msg: bytes, id: uint32, answer: bool, key: Key)
    ensures var es := Completing(k, l, msg, id, answer);
            && Messages(es, key) == (if k == key && !l.isCBS then [msg] else [])
            && Settlements(es, key) == if k == key then [id] else []
  {
    var send := if !l.isCBS then [Send(k, l.address, msg)] else if answer then [Authorize(k, msg)] else [];
    var tail := if l.isCBS then [] else Replenishment(k, l);
    assert Completed(k, l, msg, answer) == send + tail;
    assert forall i | 0 <= i < |tail| :: !tail[i].Send? && !tail[i].Disposition?;
    hide Replenishment, Completed, Messages, Settlements;
    SilentEffects(tail, key);
    SilentEffects([], key);
    if send != [] { OneEffect(send[0], key); }
    OneEffect(Disposition(k, id), key);
    EffectsAppend(send, tail, key);
    EffectsAppend(send + tail, [Disposition(k, id)], key);
  }

  lemma OneEffect(e: Effect, key: Key)
    ensures Messages([e], key) == if e.Send? && e.key == key then [e.msg] else []
    ensures Settlements([e], key) == if e.Disposition? && e.key == key then [e.id] else []
  {
    assert [e][..0] == [];
  }

  /**
   However other links come, go and send in between, a link behaves as if it were alone while the
   connection lasts.
   */
  lemma {:induction false} RunAlone(c: ConnState, es: seq<Event>, key: Key)
    requires key in c.links && !c.links[key].isCBS && Steady(es, key) && Run(c, es).alive
    ensures var c' := Run(c, es);
            && key in c'.links && !c'.links[key].isCBS
            && View(c', key) == FeedAll(View(c, key), OfLink(es, key))
    decreases |es|
  {
    if es != [] {
      hide OnEvent, View, Feed;
      var k := |es| - 1;
      AliveBefore(Run(c, es[..k]), es[k]);
      RunAlone(c, es[..k], key);
      EventAlone(Run(c, es[..k]), es[k], key);
      var own := OfLink(es[..k], key);
      if es[k].Arrive? && es[k].t.Key() == key {
        assert (own + [es[k].t])[..|own|] == own;
      } else {
        assert own + [] == own;
      }
    }
  }

  lemma {:induction false} FeedChunks(a: Alone, channel: uint16, handle: uint32, fs: seq<Frame>)
    ensures FeedAll(a, Chunks(channel, handle, fs)) == a.(partial := a.partial + Joined(fs))
    decreases |fs|
  {
    if fs == [] {
      assert a.partial + [] == a.partial;
    } else {
      var k := |fs| - 1;
      FeedChunks(a, channel, handle, fs[..k]);
      var cs := Chunks(channel, handle, fs[..k]);
      assert Chunks(channel, handle, fs)[..|cs|] == cs;
      AppendAssoc(a.partial, Joined(fs[..k]), fs[k].payload);
    }
  }

  lemma FeedDelivery(a: Alone, channel: uint16, handle: uint32, d: Delivery)
    requires a.partial == []
    ensures FeedAll(a, FramesOf(channel, handle, d)) ==
            Alone([], a.msgs + [Content(d)], a.ids + LastIds([d]))
  {
    FeedChunks(a, channel, handle, d.first);
    var cs := Chunks(channel, handle, d.first);
    assert FramesOf(channel, handle, d)[..|cs|] == cs;
    assert a.partial + Joined(d.first) == Joined(d.first);
  }

  lemma {:induction false} FeedDeliveries(a: Alone, channel: uint16, handle: uint32, ds: seq<Delivery>)
    requires a.partial == []
    ensures FeedAll(a, FramesOfAll(channel, handle, ds)) ==
            Alone([], a.msgs + Contents(ds), a.ids + LastIds(ds))
    decreases |ds|
  {
    if ds == [] {
      assert a.msgs + [] == a.msgs && a.ids + [] == a.ids;
    } else {
      var k := |ds| - 1;
      var before := FramesOfAll(channel, handle, ds[..k]);
      FeedDeliveries(a, channel, handle, ds[..k]);
      assert FramesOfAll(channel, handle, ds) == before + FramesOf(channel, handle, ds[k]);
      hide FramesOfAll;
      FeedAllAppend(a, before, FramesOf(channel, handle, ds[k]));
      FeedDelivery(FeedAll(a, before), channel, handle, ds[k]);
      hide FeedAll, Content, FramesOf, Contents, LastIds;
      AppendAssoc(a.msgs, Contents(ds[..k]), [Content(ds[k])]);
      AppendAssoc(a.ids, LastIds(ds[..k]), LastIds([ds[k]]));
      OneMore(ds);
    }
  }

  lemma OneMore(ds: seq<Delivery>)
    requires ds != []
    ensures var k := |ds| - 1;
            && Contents(ds) == Contents(ds[..k]) + [Content(ds[k])]
            && LastIds(ds) == LastIds(ds[..k]) + LastIds([ds[k]])
  {
    hide Content;
  }

  /** The link is attached, in no delivery, and gets the frames of ds while other links come, go and send. */
  predicate Receives(c: ConnState, es: seq<Event>, channel: uint16, handle: uint32, ds: seq<Delivery>) {
    var key := LinkKey(channel, handle);
    && key in c.links && !c.links[key].isCBS && c.links[key].partial == []
    && Steady(es, key) && OfLink(es, key) == FramesOfAll(channel, handle, ds)
  }

  /**
   Whatever other links do in between, the broker receives from a link exactly the messages its client
   split, each whole, once and in order; each is settled once, with the delivery-id of its final frame;
   and nothing is left in the link's buffer.
   */
  lemma Reassembly(c: ConnState, es: seq<Event>, channel: uint16, handle: uint32, ds: seq<Delivery>)
    requires Receives(c, es, channel, handle, ds) && Run(c, es).alive
    ensures var key := LinkKey(channel, handle);
            var c' := Run(c, es);
            && key in c'.links && c'.links[key].partial == []
            && Messages(c'.effects, key) == Messages(c.effects, key) + Contents(ds)
            && Settlements(c'.effects, key) == Settlements(c.effects, key) + LastIds(ds)
  {
    var key := LinkKey(channel, handle);
    RunAlone(c, es, key);
    FeedDeliveries(View(c, key), channel, handle, ds);
  }

  // ---- Deliveries without an id ----

  function Ids(ds: seq<Delivery>): (r: seq<uint32>)
    ensures |r| == |ds| && forall i | 0 <= i < |ds| :: r[i] == ds[i].id
  {
    seq(|ds|, i requires 0 <= i < |ds| => ds[i].id)
  }

  /** The final frame repeats the delivery-id, or leaves out an id that is 0. */
  predicate NamesItself(d: Delivery) {
    if d.last.id.Some? then d.last.id.value == d.id else d.id == 0
  }

  /** Each delivery of a link is settled under its own id exactly when every final frame carries it, or the id is 0. */
  lemma SettledByName(c: ConnState, es: seq<Event>, channel: uint16, handle: uint32, ds: seq<Delivery>)
    requires Receives(c, es, channel, handle, ds) && Run(c, es).alive
    ensures var key := LinkKey(channel, handle);
            Settlements(Run(c, es).effects, key) == Settlements(c.effects, key) + Ids(ds) <==>
            forall i | 0 <= i < |ds| :: NamesItself(ds[i])
  {
    hide Run, Settlements, Receives;
    Reassembly(c, es, channel, handle, ds);
    SameTail(Settlements(c.effects, LinkKey(channel, handle)), LastIds(ds), Ids(ds));
    if LastIds(ds) == Ids(ds) {
      forall i | 0 <= i < |ds| ensures NamesItself(ds[i]) {
        assert LastIds(ds)[i] == Ids(ds)[i];
      }
    }
  }

  lemma SameTail<T>(x: seq<T>, y: seq<T>, z: seq<T>)
    ensures x + y == x + z <==> y == z
  {
    if x + y == x + z {
      assert y == (x + y)[|x|..] == (x + z)[|x|..] == z;
    }
  }

  /** A delivery 7 in two frames, the id on the first only, as section 2.7.5 of AMQP 1.0 allows: it is settled as 0. */
  lemma ContinuationSettledAsZero(c: ConnState, channel: uint16, handle: uint32, p: bytes, q: bytes)
    requires c.alive && c.good.None? && LinkKey(channel, handle) in c.links
    requires var l := c.links[LinkKey(channel, handle)]; !l.isCBS && l.partial == []
    ensures var key := LinkKey(channel, handle);
            var c' := Run(c, [Arrive(Transfer(channel, handle, Some(7), true, p)),
                              Arrive(Transfer(channel, handle, None, false, q))]);
            && Messages(c'.effects, key) == Messages(c.effects, key) + [p + q]
            && Settlements(c'.effects, key) == Settlements(c.effects, key) + [0]
  {
    var d := Delivery(7, [Frame(Some(7), p)], Frame(None, q));
    var t, u := Transfer(channel, handle, Some(7), true, p), Transfer(channel, handle, None, false, q);
    var es := [Arrive(t), Arrive(u)];
    TwoFrames(t, u, d);
    AliveUnlimited(c, es);
    hide Run, Messages, Settlements, FramesOfAll, OfLink;
    Reassembly(c, es, channel, handle, [d]);
    assert Contents([d]) == [p + q] by { assert Joined(d.first) == p by { JoinedOne(d.first[0]); } }
    assert LastIds([d]) == [0];
  }

  lemma TwoFrames(t: Transfer, u: Transfer, d: Delivery)
    requires t.more && !u.more && t.channel == u.channel && t.handle == u.handle
    requires d.first == [Frame(t.id, t.payload)] && d.last == Frame(u.id, u.payload)
    ensures OfLink([Arrive(t), Arrive(u)], t.Key()) == [t, u] == FramesOfAll(t.channel, t.handle, [d])
  {
    assert [Arrive(t), Arrive(u)][..1] == [Arrive(t)] && [Arrive(t)][..0] == [];
    assert OfLink([Arrive(t)], t.Key()) == [t];
    assert [d][..0] == [] && d.first[..0] == [];
    assert Chunks(t.channel, t.handle, d.first) == [t];
    assert FramesOf(t.channel, t.handle, d) == [t] + [u];
    assert FramesOfAll(t.channel, t.handle, [d]) == [] + FramesOf(t.channel, t.handle, d);
  }

  lemma JoinedOne(f: Frame)
    ensures Joined([f]) == f.payload
  {
    assert [f][..0] == [];
  }

  // ---- A connection that fails ----

  /** The same connection over a socket that never fails. */
  function Unlimited(c: ConnState): ConnState {
    c.(good := None)
  }

  lemma {:induction false} AliveUnlimited(c: ConnState, es: seq<Event>)
    requires c.alive && c.good.None?
    ensures Run(c, es).alive && Run(c, es).good.None?
    decreases |es|
  {
    hide OnEvent;
    if es != [] {
      AliveUnlimited(c, es[..|es| - 1]);
      EventUnlimited(Run(c, es[..|es| - 1]), es[|es| - 1]);
    }
  }

  lemma EventUnlimited(c: ConnState, e: Event)
    requires c.alive && c.good.None?
    ensures OnEvent(c, e).alive && OnEvent(c, e).good.None?
  {
    hide Emit, Attaching, Completing, Ended;
    forall links, es ensures Emit(c.(links := links), es).alive && Emit(c.(links := links), es).good.None? {
      EmitFacts(c.(links := links), es);
    }
  }

  lemma {:induction false} EmitUnlimited(c: ConnState, es: seq<Effect>)
    requires c.alive
    ensures Emit(c, es).effects <= Emit(Unlimited(c), es).effects
    ensures Emit(c, es).alive ==> Unlimited(Emit(c, es)) == Emit(Unlimited(c), es)
    decreases |es|
  {
    if es != [] {
      var init := es[..|es| - 1];
      EmitUnlimited(c, init);
      EmitFacts(Unlimited(c), init);
    }
  }

  /** Up to its failure a connection does what it would do without one, and nothing after. */
  lemma {:induction false} FailureCutsShort(c: ConnState, es: seq<Event>)
    requires c.alive
    ensures Run(c, es).effects <= Run(Unlimited(c), es).effects
    ensures Run(c, es).alive ==> Unlimited(Run(c, es)) == Run(Unlimited(c), es)
    decreases |es|
  {
    hide OnEvent;
    if es != [] {
      var k := |es| - 1;
      FailureCutsShort(c, es[..k]);
      AliveUnlimited(Unlimited(c), es[..k]);
      EventCutsShort(Run(c, es[..k]), Run(Unlimited(c), es[..k]), es[k]);
    }
  }

  lemma EventCutsShort(c: ConnState, d: ConnState, e: Event)
    requires c.effects <= d.effects && d.alive && (c.alive ==> Unlimited(c) == d)
    ensures OnEvent(c, e).effects <= OnEvent(d, e).effects
    ensures OnEvent(c, e).alive ==> Unlimited(OnEvent(c, e)) == OnEvent(d, e)
  {
    hide Emit, Attaching, Completing, Ended;
    forall links, es
      ensures d.effects <= Emit(d.(links := links), es).effects
      ensures c.alive ==> Emit(c.(links := links), es).effects <= Emit(d.(links := links), es).effects
      ensures c.alive && Emit(c.(links := links), es).alive ==>
                Unlimited(Emit(c.(links := links), es)) == Emit(d.(links := links), es)
    {
      var n := EmitPart(d.(links := links), es);
      if c.alive { EmitUnlimited(c.(links := links), es); }
    }
  }

  /** How many messages of a link are handed on and not settled. */
  function Unsettled(effects: seq<Effect>, key: Key): int {
    |Messages(effects, key)| - |Settlements(effects, key)|
  }

  lemma {:induction false} UnsettledRun(c: ConnState, es: seq<Event>, key: Key)
    requires c.alive && key in c.links && !c.links[key].isCBS && Steady(es, key)
    ensures var u := Unsettled(Run(c, es).effects, key) - Unsettled(c.effects, key);
            0 <= u <= 1 && (Run(c, es).alive ==> u == 0)
    decreases |es|
  {
    hide OnEvent, Unsettled;
    if es != [] {
      var k := |es| - 1;
      var before := Run(c, es[..k]);
      UnsettledRun(c, es[..k], key);
      if before.alive {
        RunAlone(c, es[..k], key);
        UnsettledEvent(before, es[k], key);
      } else {
        OverStays(before, es[k]);
      }
    }
  }

  lemma OverStays(c: ConnState, e: Event)
    requires !c.alive
    ensures OnEvent(c, e) == c
  {
  }

  lemma UnsettledEvent(c: ConnState, e: Event, key: Key)
    requires c.alive && key in c.links && !c.links[key].isCBS && Steady([e], key)
    ensures var u := Unsettled(OnEvent(c, e).effects, key) - Unsettled(c.effects, key);
            0 <= u <= 1 && (OnEvent(c, e).alive ==> u == 0)
  {
    hide Messages, Settlements, Emit, Transfer.Key, Transfer.DeliveryId, Recorded, Attaching, Completing, Unsettled;
    assert e == [e][0];
    match e
    case Attach(channel, handle, address, clientIsSender) =>
      var k := LinkKey(channel, handle);
      AttachingPart(c.(links := c.links[k := Fresh(address, clientIsSender, address == CBS_ADDRESS)]), k, address,
                    clientIsSender, key);
    case Arrive(t) =>
      if t.Key() in c.links && !t.more {
        var l := c.links[t.Key()];
        CompletingPart(c.(links := c.links[t.Key() := Ended(l)]), t.Key(), l, l.partial + t.payload, t.DeliveryId(),
                       HasCbsReceiver(c.links, t.channel), key);
      }
    case Detach(channel, handle) =>
      var k := LinkKey(channel, handle);
      SilentPart(c.(links := c.links - {k}), [Detached(k)], key);
  }

  lemma AttachingPart(c: ConnState, k: Key, address: string, clientIsSender: bool, key: Key)
    ensures Unsettled(Emit(c, Attaching(k, address, clientIsSender)).effects, key) == Unsettled(c.effects, key)
  {
    hide Index, Emit, Unsettled;
    SilentPart(c, Attaching(k, address, clientIsSender), key);
  }

  lemma SilentPart(c: ConnState, es: seq<Effect>, key: Key)
    requires forall i | 0 <= i < |es| :: !es[i].Send? && !es[i].Disposition?
    ensures Unsettled(Emit(c, es).effects, key) == Unsettled(c.effects, key)
  {
    hide Messages, Settlements, Emit;
    var n := EmitPart(c, es);
    SilentEffects(es[..n], key);
    EffectsAppend(c.effects, es[..n], key);
  }

  lemma CompletingPart(c: ConnState, k: Key, l: LinkState, msg: bytes, id: uint32, answer: bool, key: Key)
    requires c.alive && (k == key ==> !l.isCBS)
    ensures var c' := Emit(c, Completing(k, l, msg, id, answer));
            var u := Unsettled(c'.effects, key) - Unsettled(c.effects, key);
            0 <= u <= 1 && (c'.alive ==> u == 0)
  {
    hide Messages, Settlements, Emit, Recorded, Replenishes;
    var es := Completing(k, l, msg, id, answer);
    var n := EmitPart(c, es);
    EffectsAppend(c.effects, es[..n], key);
    if n == |es| {
      assert es[..n] == es;
      CompletedEffects(k, l, msg, id, answer, key);
      if k == key { assert |Messages(es, key)| == 1; }
    } else if n == 0 {
      SilentEffects(es[..0], key);
    } else {
      OneEffect(es[0], key);
      SilentEffects(es[1..n], key);
      EffectsAppend([es[0]], es[1..n], key);
      assert es[..n] == [es[0]] + es[1..n];
    }
  }

  /**
   Wherever the connection fails, what the broker received from a link and what was settled are prefixes
   of what a connection that lasts gives, and at most one message was handed on without being settled.
   */
  lemma FailureLosesNothingSettled(c: ConnState, es: seq<Event>, channel: uint16, handle: uint32, ds: seq<Delivery>)
    requires c.alive && Receives(c, es, channel, handle, ds)
    ensures var key, c' := LinkKey(channel, handle), Run(c, es);
            && Messages(c'.effects, key) <= Messages(c.effects, key) + Contents(ds)
            && Settlements(c'.effects, key) <= Settlements(c.effects, key) + LastIds(ds)
            && 0 <= Unsettled(c'.effects, key) - Unsettled(c.effects, key) <= 1
  {
    hide Run, Messages, Settlements, Unsettled, FramesOfAll;
    var key := LinkKey(channel, handle);
    FailureCutsShort(c, es);
    AliveUnlimited(Unlimited(c), es);
    Reassembly(Unlimited(c), es, channel, handle, ds);
    PrefixEffects(Run(c, es).effects, Run(Unlimited(c), es).effects, key);
    UnsettledRun(c, es, key);
  }

  lemma PrefixEffects(xs: seq<Effect>, zs: seq<Effect>, key: Key)
    requires xs <= zs
    ensures Messages(xs, key) <= Messages(zs, key) && Settlements(xs, key) <= Settlements(zs, key)
  {
    hide Messages, Settlements;
    assert zs == xs + zs[|xs|..];
    EffectsAppend(xs, zs[|xs|..], key);
  }

  // ---- The code ----

  lemma {:induction false} EmitLinks(c: ConnState, links: map<Key, LinkState>, es: seq<Effect>)
    ensures Emit(c.(links := links), es) == Emit(c, es).(links := links)
    decreases |es|
  {
    if es == [] {
    } else {
      EmitLinks(c, links, es[..|es| - 1]);
    }
  }

  lemma EmitSteps(c: ConnState, e: Effect, es: seq<Effect>)
    ensures Emit(c, []) == c && Emit(c, [e]) == EmitOne(c, e)
    ensures Emit(c, [e] + es) == Emit(EmitOne(c, e), es)
    ensures !c.alive ==> Emit(c, es) == c
  {
    hide Emit;
    assert Emit(c, []) == c by { EmitNothing(c); }
    assert Emit(c, [e]) == EmitOne(c, e) by { EmitSingle(c, e); }
    EmitAppend(c, [e], es);
    if !c.alive { EmitOver(c, es); }
  }

  lemma EmitNothing(c: ConnState)
    ensures Emit(c, []) == c
  {
  }

  lemma EmitSingle(c: ConnState, e: Effect)
    ensures Emit(c, [e]) == EmitOne(c, e)
  {
    assert [e][..0] == [];
  }

  lemma {:induction false} EmitOver(c: ConnState, es: seq<Effect>)
    requires !c.alive
    ensures Emit(c, es) == c
    decreases |es|
  {
    if es != [] { EmitOver(c, es[..|es| - 1]); }
  }

  class Conn {
    var links: map<Key, Link>
    var effects: seq<Effect>
    var good: Option<nat>
    var alive: bool

    ghost predicate Valid()
      reads this
    {
      forall k, k' | k in links && k' in links && k != k' :: links[k] != links[k']
    }

    ghost function States(): map<Key, LinkState>
      reads this, links.Values
    {
      map k | k in links :: links[k].State()
    }

    /** The connection without its links. */
    ghost function Socket(): ConnState
      reads this
    {
      ConnState(map[], effects, good, alive)
    }

    ghost function State(): ConnState
      reads this, links.Values
    {
      Socket().(links := States())
    }

    /** `good` says how many writes the socket will take. */
    constructor (good: Option<nat>)
      ensures Valid() && State() == ConnState(map[], [], good, true)
    {
      links, effects, this.good, alive := map[], [], good, true;
    }

    /** Does one thing; a write that fails ends the connection. */
    method Do(e: Effect) returns (ok: bool)
      modifies this`effects, this`good, this`alive
      ensures Socket() == EmitOne(old(Socket()), e) && ok == alive
    {
      if !alive {
        return false;
      }
      if IsWrite(e) && good.Some? {
        if good.value == 0 {
          alive := false;
          return false;
        }
        good := Some(good.value - 1);
      }
      effects := effects + [e];
      return true;
    }

    method AttachLink(channel: uint16, handle: uint32, address: string, clientIsSender: bool)
      requires Valid()
      modifies this
      ensures Valid() && State() == OnEvent(old(State()), Attach(channel, handle, address, clientIsSender))
      ensures fresh(links.Values - old(links.Values))
    {
      hide LinkKey, Emit, EmitOne, Index, Attaching;
      if !alive {
        return;
      }
      var key := LinkKey(channel, handle);
      StoreLink(key, address, clientIsSender);
      EmitLinks(old(State()), States(), Attaching(key, address, clientIsSender));
      EmitLinks(old(Socket()), old(States()), Attaching(key, address, clientIsSender));
      Announce(key, address, clientIsSender);
    }

    method StoreLink(key: Key, address: string, clientIsSender: bool)
      requires Valid()
      modifies this`links
      ensures Valid() && States() == old(States())[key := Fresh(address, clientIsSender, address == CBS_ADDRESS)]
      ensures fresh(links.Values - old(links.Values))
    {
      var l := new Link(address, clientIsSender, address == CBS_ADDRESS);
      links := links[key := l];
    }

    method RemoveLink(key: Key)
      requires Valid()
      modifies this`links, links.Values
      ensures Valid() && States() == old(States()) - {key}
    {
      if key in links {
        links[key].Close();
        links := links - {key};
      }
    }

    /** What an attach makes the server do once the link is stored. */
    method Announce(key: Key, address: string, clientIsSender: bool)
      modifies this`effects, this`good, this`alive
      ensures Socket() == Emit(old(Socket()), Attaching(key, address, clientIsSender))
    {
      hide Emit, EmitOne, Index;
      ghost var c := Socket();
      ghost var rest := if clientIsSender then [Flow(key, 0, SENDER_INITIAL_CREDIT)]
                        else if address != CBS_ADDRESS then [StartLoop(key, address)]
                        else [];
      var ok := alive;
      if !clientIsSender && address != CBS_ADDRESS && Index(address, MANAGEMENT) < 0 {
        EmitSteps(c, Register(key, address), [Attached(key)] + rest);
        assert [Register(key, address)] + ([Attached(key)] + rest) == Attaching(key, address, clientIsSender);
        ok := Do(Register(key, address));
      } else {
        assert [Attached(key)] + rest == Attaching(key, address, clientIsSender);
      }
      EmitSteps(Socket(), Attached(key), rest);
      ok := Do(Attached(key));
      EmitSteps(Socket(), Flow(key, 0, SENDER_INITIAL_CREDIT), rest);
      EmitSteps(Socket(), StartLoop(key, address), rest);
      if !ok {
        return;
      }
      if clientIsSender {
        ok := Do(Flow(key, 0, SENDER_INITIAL_CREDIT));
      } else if address != CBS_ADDRESS {
        ok := Do(StartLoop(key, address));
      }
    }

    method Receive(t: Transfer)
      requires Valid()
      modifies this`effects, this`good, this`alive, links.Values
      ensures Valid() && links == old(links) && State() == OnEvent(old(State()), Arrive(t))
    {
      hide Recorded, Replenishes, Transfer.Key, Transfer.DeliveryId, Emit, Completing, Ended;
      var key := t.Key();
      if !alive || key !in links {
        return;
      }
      ghost var l := links[key].State();
      ghost var answer := HasCbsReceiver(States(), t.channel);
      ghost var es := Completing(key, l, l.partial + t.payload, t.DeliveryId(), answer);
      if t.more {
        links[key].AppendPartial(t.payload);
        assert States() == old(States())[key := l.(partial := l.partial + t.payload)];
      } else {
        Complete(links[key], t);
        assert States() == old(States())[key := Ended(l)];
        EmitLinks(old(Socket()), States(), es);
        EmitLinks(old(State()), States(), es);
        EmitLinks(old(Socket()), old(States()), es);
      }
    }

    /** The final frame of a delivery on l: a write that fails is the last thing done. */
    method Complete(l: Link, t: Transfer)
      requires Valid()
      modifies this`effects, this`good, this`alive, l
      ensures l.State() == Ended(old(l.State()))
      ensures Socket() ==
              Emit(old(Socket()), Completing(t.Key(), old(l.State()), old(l.partial) + t.payload, t.DeliveryId(),
                                             old(HasCbsReceiver(States(), t.channel))))
    {
      hide Recorded, Replenishes, Transfer.Key, Transfer.DeliveryId, Emit, EmitOne;
      ghost var before, key := l.State(), t.Key();
      ghost var settle := [Disposition(key, t.DeliveryId())];
      ReceiverInState(t.channel);
      var msg := l.TakePartial(t.payload);
      PartialIrrelevant(before);
      ghost var credit := if before.isCBS then [] else Replenishment(key, before);
      var ok := alive;
      if l.isCBS {
        var answer := FindCbsReceiver(t.channel);
        ghost var first := if answer then [Authorize(key, msg)] else [];
        assert Completing(key, before, msg, t.DeliveryId(), answer) == first + settle;
        if answer {
          EmitSteps(Socket(), Authorize(key, msg), settle);
          ok := Do(Authorize(t.Key(), msg));
          EmitSteps(Socket(), Authorize(key, msg), settle);
          if !ok {
            return;
          }
        } else {
          assert first + settle == settle;
        }
      } else {
        assert Completing(key, before, msg, t.DeliveryId(), old(HasCbsReceiver(States(), t.channel)))
            == [Send(key, before.address, msg)] + (credit + settle);
        EmitSteps(Socket(), Send(key, before.address, msg), credit + settle);
        ok := Do(Send(t.Key(), l.address, msg));
      }
      if !l.isCBS {
        var replenish, received := l.RecordReceived();
        if replenish {
          EmitSteps(Socket(), Flow(key, received, SENDER_INITIAL_CREDIT), settle);
          ok := Do(Flow(t.Key(), received, SENDER_INITIAL_CREDIT));
          EmitSteps(Socket(), Disposition(key, t.DeliveryId()), settle);
          if !ok {
            return;
          }
        } else {
          assert credit + settle == settle;
        }
      }
      EmitSteps(Socket(), Disposition(key, t.DeliveryId()), []);
      ok := Do(Disposition(t.Key(), t.DeliveryId()));
    }

    /** Whether some link of this session takes the answers of the $cbs node; which one is up to the runtime. */
    method FindCbsReceiver(channel: uint16) returns (found: bool)
      requires Valid()
      ensures found == HasReceiver(channel)
    {
      var left := links.Keys;
      while left != {}
        invariant left <= links.Keys
        invariant forall k | k in links.Keys - left :: !IsReceiver(k, links[k], channel)
        decreases left
      {
        var k :| k in left;
        if links[k].isCBS && !links[k].clientIsSender && k / 0x1_0000_0000 == channel {
          assert IsReceiver(k, links[k], channel);
          return true;
        }
        left := left - {k};
      }
      return false;
    }

    ghost predicate IsReceiver(key: Key, l: Link, channel: uint16) {
      l.isCBS && !l.clientIsSender && key / 0x1_0000_0000 == channel
    }

    /** These fields of a link never change. */
    ghost predicate HasReceiver(channel: uint16)
      reads this`links
    {
      exists k | k in links :: IsReceiver(k, links[k], channel)
    }

    lemma ReceiverInState(channel: uint16)
      ensures HasReceiver(channel) == HasCbsReceiver(States(), channel)
    {
      if HasReceiver(channel) {
        var k :| k in links && IsReceiver(k, links[k], channel);
        assert IsCbsReceiver(k, States()[k], channel);
      }
      if HasCbsReceiver(States(), channel) {
        var k :| k in States() && IsCbsReceiver(k, States()[k], channel);
        assert IsReceiver(k, links[k], channel);
      }
    }

    method DetachLink(channel: uint16, handle: uint32)
      requires Valid()
      modifies this, links.Values
      ensures Valid() && State() == OnEvent(old(State()), Detach(channel, handle))
    {
      hide LinkKey, Emit, EmitOne;
      if !alive {
        return;
      }
      var key := LinkKey(channel, handle);
      RemoveLink(key);
      EmitLinks(old(State()), States(), [Detached(key)]);
      EmitLinks(old(Socket()), old(States()), [Detached(key)]);
      EmitSteps(Socket(), Detached(key), []);
      var ok := Do(Detached(key));
    }
  }

  lemma PartialIrrelevant(l: LinkState)
    ensures Replenishes(l.(partial := [])) == Replenishes(l)
    ensures Recorded(l.(partial := [])).received == Recorded(l).received
  {
  }
}
