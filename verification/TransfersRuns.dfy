/** What a connection does over a whole run: all a link causes, in order, and what a failing socket lets out. */
module TransfersRuns {
  import opened Bytes
  import CreditWindow
  import opened Link
  import opened Strings
  import opened Transfers
  import opened TransfersLaws
  import opened Wrappers

  // ---- All a link causes, in order ----

  predicate About(e: Effect, key: Key) {
    (e.Send? || e.Flow? || e.Disposition?) && e.key == key
  }

  /** What is handed on, granted and settled on a link. */
  function Told(effects: seq<Effect>, key: Key): seq<Effect>
    decreases |effects|
  {
    if effects == [] then []
    else
      var k := |effects| - 1;
      Told(effects[..k], key) + if About(effects[k], key) then [effects[k]] else []
  }

  /** The link's last frame gives the number a delivery is settled under. */
  function SettledAs(d: Delivery): uint32 {
    if d.last.id.Some? then d.last.id.value else 0
  }

  /** The n-th delivery is handed on and then settled; before every 2500th is settled the client is granted 5000 again. */
  function DeliveryEffects(key: Key, address: string, msg: bytes, n: nat, id: uint32): seq<Effect> {
    [Send(key, address, msg)]
    + (if n % 2500 == 0 then [Flow(key, n % 0x1_0000_0000, 5000)] else [])
    + [Disposition(key, id)]
  }

  function Answered(key: Key, address: string, ds: seq<Delivery>): seq<Effect>
    decreases |ds|
  {
    if ds == [] then []
    else
      var n := |ds|;
      Answered(key, address, ds[..n - 1]) + DeliveryEffects(key, address, Content(ds[n - 1]), n, SettledAs(ds[n - 1]))
  }

  /** A link and what was told of it. */
  datatype Own = Own(link: LinkState, told: seq<Effect>)

  function OwnView(c: ConnState, key: Key): Own
    requires key in c.links
  {
    Own(c.links[key], Told(c.effects, key))
  }

  function Took(o: Own, t: Transfer): Own {
    if t.more then o.(link := o.link.(partial := o.link.partial + t.payload))
    else Own(Ended(o.link), o.told + Completing(t.Key(), o.link, o.link.partial + t.payload, t.DeliveryId(), false))
  }

  function TookAll(o: Own, ts: seq<Transfer>): Own
    decreases |ts|
  {
    if ts == [] then o else Took(TookAll(o, ts[..|ts| - 1]), ts[|ts| - 1])
  }

  lemma {:induction false} ToldAppend(xs: seq<Effect>, ys: seq<Effect>, key: Key)
    ensures Told(xs + ys, key) == Told(xs, key) + Told(ys, key)
    decreases |ys|
  {
    ToldNothing(key);
    hide Told, About;
    if ys == [] {
      assert xs + ys == xs && Told(xs, key) + [] == Told(xs, key);
    } else {
      var k := |ys| - 1;
      assert xs + ys == xs + ys[..k] + [ys[k]] && ys == ys[..k] + [ys[k]];
      ToldAppend(xs, ys[..k], key);
      ToldOne(xs + ys[..k], ys[k], key);
      ToldOne(ys[..k], ys[k], key);
      AppendAssoc(Told(xs, key), Told(ys[..k], key), if About(ys[k], key) then [ys[k]] else []);
    }
  }

  lemma ToldNothing(key: Key)
    ensures Told([], key) == []
  {
  }

  lemma ToldOne(es: seq<Effect>, e: Effect, key: Key)
    ensures Told(es + [e], key) == Told(es, key) + if About(e, key) then [e] else []
  {
    assert (es + [e])[..|es|] == es;
  }

  lemma ToldMore(effects: seq<Effect>, es: seq<Effect>, key: Key, all: bool)
    requires forall e | e in es :: About(e, key) == all
    ensures Told(effects + es, key) == if all then Told(effects, key) + es else Told(effects, key)
  {
    hide Told, About;
    ToldAppend(effects, es, key);
    ToldAll(es, key, all);
    assert Told(effects, key) + [] == Told(effects, key);
  }

  lemma {:induction false} ToldAll(es: seq<Effect>, key: Key, all: bool)
    requires forall e | e in es :: About(e, key) == all
    ensures Told(es, key) == if all then es else []
    decreases |es|
  {
    if es != [] {
      var k := |es| - 1;
      assert es == es[..k] + [es[k]] && es[k] in es;
      ToldAll(es[..k], key, all);
    }
  }

  lemma CompletingAbout(key: Key, l: LinkState, msg: bytes, id: uint32, answer: bool, other: Key)
    requires key == other ==> !l.isCBS
    ensures forall e | e in Completing(key, l, msg, id, answer) :: About(e, other) == (key == other)
    ensures !l.isCBS ==> Completing(key, l, msg, id, answer) == Completing(key, l, msg, id, false)
  {
    hide Replenishes, Recorded;
  }

  lemma AttachingAbout(k: Key, address: string, sender: bool, key: Key)
    requires k != key
    ensures forall e | e in Attaching(k, address, sender) :: !About(e, key)
  {
    hide Index;
  }

  // ---- A frame changes links and emits effects ----

  function LinksAfter(links: map<Key, LinkState>, e: Event): map<Key, LinkState> {
    match e
    case Attach(channel, handle, address, sender) =>
      links[LinkKey(channel, handle) := Fresh(address, sender, address == "$cbs")]
    case Arrive(t) =>
      if t.Key() !in links then links
      else
        var l := links[t.Key()];
        links[t.Key() := if t.more then l.(partial := l.partial + t.payload) else Ended(l)]
    case Detach(channel, handle) => links - {LinkKey(channel, handle)}
  }

  function EffectsOf(links: map<Key, LinkState>, e: Event): seq<Effect> {
    match e
    case Attach(channel, handle, address, sender) => Attaching(LinkKey(channel, handle), address, sender)
    case Arrive(t) =>
      if t.Key() !in links || t.more then []
      else
        var l := links[t.Key()];
        Completing(t.Key(), l, l.partial + t.payload, t.DeliveryId(), HasCbsReceiver(links, t.channel))
    case Detach(channel, handle) => [Detached(LinkKey(channel, handle))]
  }

  lemma EventEmits(c: ConnState, e: Event)
    requires c.alive
    ensures OnEvent(c, e) == Emit(c.(links := LinksAfter(c.links, e)), EffectsOf(c.links, e))
  {
    hide Attaching, Completing, Recorded, Ended, HasCbsReceiver, LinkKey;
  }

  lemma EventLasts(c: ConnState, e: Event)
    requires Lasting(c)
    ensures Lasting(OnEvent(c, e)) && OnEvent(c, e).links == LinksAfter(c.links, e)
    ensures OnEvent(c, e).effects == c.effects + EffectsOf(c.links, e)
  {
    EventEmits(c, e);
    hide OnEvent, Emit, EffectsOf, LinksAfter;
    EmitFacts(c.(links := LinksAfter(c.links, e)), EffectsOf(c.links, e));
  }

  // ---- A link by itself ----

  lemma OwnEvent(c: ConnState, e: Event, key: Key)
    requires Lasting(c) && key in c.links && !c.links[key].isCBS && Steady([e], key)
    ensures var c' := OnEvent(c, e);
            && Lasting(c') && key in c'.links && !c'.links[key].isCBS
            && OwnView(c', key) == if e.Arrive? && e.t.Key() == key then Took(OwnView(c, key), e.t) else OwnView(c, key)
  {
    assert e == [e][0];
    EventLasts(c, e);
    EventAbout(c.links, e, key);
    OwnLink(c.links, e, key);
    hide OnEvent, About, Told, EffectsOf, Completing, Ended, LinksAfter, Steady, Transfer.Key, Transfer.DeliveryId;
    ToldMore(c.effects, EffectsOf(c.links, e), key, e.Arrive? && e.t.Key() == key);
    EndedKeeps(c.links[key]);
    if e.Arrive? && e.t.Key() == key { OwnEffects(c.links, e, key); }
  }

  lemma OwnLink(links: map<Key, LinkState>, e: Event, key: Key)
    requires key in links && Steady([e], key)
    ensures key in LinksAfter(links, e)
    ensures var l := links[key];
            LinksAfter(links, e)[key] ==
            if !(e.Arrive? && e.t.Key() == key) then l
            else if e.t.more then l.(partial := l.partial + e.t.payload)
            else Ended(l)
  {
    assert e == [e][0];
    hide Ended, LinkKey, Transfer.Key;
  }

  lemma EndedKeeps(l: LinkState)
    ensures Ended(l).isCBS == l.isCBS
  {
  }

  lemma OwnEffects(links: map<Key, LinkState>, e: Event, key: Key)
    requires key in links && !links[key].isCBS && e.Arrive? && e.t.Key() == key
    ensures var l := links[key];
            EffectsOf(links, e) ==
            if e.t.more then [] else Completing(key, l, l.partial + e.t.payload, e.t.DeliveryId(), false)
  {
    hide Transfer.Key, Transfer.DeliveryId, HasCbsReceiver, Replenishment;
  }

  lemma EventAbout(links: map<Key, LinkState>, e: Event, key: Key)
    requires key in links && !links[key].isCBS && Steady([e], key)
    ensures forall x | x in EffectsOf(links, e) :: About(x, key) == (e.Arrive? && e.t.Key() == key)
  {
    assert e == [e][0];
    hide LinkKey, Attaching, Completing, Transfer.Key, Transfer.DeliveryId, HasCbsReceiver;
    match e
    case Attach(channel, handle, address, sender) => AttachingAbout(LinkKey(channel, handle), address, sender, key);
    case Arrive(t) =>
      if t.Key() in links && !t.more {
        var l := links[t.Key()];
        CompletingAbout(t.Key(), l, l.partial + t.payload, t.DeliveryId(), HasCbsReceiver(links, t.channel), key);
      }
    case Detach(channel, handle) =>
  }

  lemma {:induction false} OwnRun(c: ConnState, es: seq<Event>, key: Key)
    requires Lasting(c) && key in c.links && !c.links[key].isCBS && Steady(es, key)
    ensures var c' := Run(c, es);
            && Lasting(c') && key in c'.links && !c'.links[key].isCBS
            && OwnView(c', key) == TookAll(OwnView(c, key), OfLink(es, key))
    decreases |es|
  {
    if es != [] {
      hide OnEvent, OwnView, Took;
      var k := |es| - 1;
      OwnRun(c, es[..k], key);
      OwnEvent(Run(c, es[..k]), es[k], key);
      var own := OfLink(es[..k], key);
      if es[k].Arrive? && es[k].t.Key() == key {
        assert (own + [es[k].t])[..|own|] == own;
      } else {
        assert own + [] == own;
      }
    }
  }

  // ---- Whole deliveries ----

  lemma {:induction false} TookAppend(o: Own, ts: seq<Transfer>, us: seq<Transfer>)
    ensures TookAll(o, ts + us) == TookAll(TookAll(o, ts), us)
    decreases |us|
  {
    hide Took;
    if us == [] {
      assert ts + us == ts;
    } else {
      var k := |us| - 1;
      assert (ts + us)[..|ts| + k] == ts + us[..k];
      TookAppend(o, ts, us[..k]);
    }
  }

  lemma {:induction false} TookChunks(o: Own, channel: uint16, handle: uint32, fs: seq<Frame>)
    ensures TookAll(o, Chunks(channel, handle, fs)) == o.(link := o.link.(partial := o.link.partial + Joined(fs)))
    decreases |fs|
  {
    if fs == [] {
      assert o.link.partial + [] == o.link.partial;
    } else {
      var k := |fs| - 1;
      TookChunks(o, channel, handle, fs[..k]);
      var cs := Chunks(channel, handle, fs[..k]);
      assert Chunks(channel, handle, fs)[..|cs|] == cs;
      AppendAssoc(o.link.partial, Joined(fs[..k]), fs[k].payload);
    }
  }

  /** A link that took n deliveries and is in none. */
  predicate After(l: LinkState, address: string, n: nat) {
    && l.address == address && !l.isCBS && l.partial == []
    && l.received == n % 0x1_0000_0000 && l.sinceFlow == n % 2500
  }

  lemma EndedAfter(l: LinkState, address: string, n: nat, key: Key, msg: bytes, id: uint32)
    requires l.address == address && !l.isCBS && l.received == n % 0x1_0000_0000 && l.sinceFlow == n % 2500
    ensures After(Ended(l), address, n + 1)
    ensures Completing(key, l, msg, id, false) == DeliveryEffects(key, address, msg, n + 1, id)
  {
    RecordedAfter(l.(partial := []), n);
    RecordedAfter(l, n);
    hide Recorded, Replenishes;
    var send := [Send(key, address, msg)];
    assert send + [] == send;
  }

  lemma RecordedAfter(l: LinkState, n: nat)
    requires l.received == n % 0x1_0000_0000 && l.sinceFlow == n % 2500
    ensures Recorded(l) == l.(received := (n + 1) % 0x1_0000_0000, sinceFlow := (n + 1) % 2500)
    ensures Replenishes(l) <==> (n + 1) % 2500 == 0
  {
    hide Recorded, Replenishes;
    CreditWindow.AnswersAre(l, n);
    RecordedOnly(l);
    ReplenishesIfReset(l);
  }

  lemma RecordedOnly(l: LinkState)
    ensures Recorded(l) == l.(received := Recorded(l).received, sinceFlow := Recorded(l).sinceFlow)
  {
  }

  lemma ReplenishesIfReset(l: LinkState)
    requires l.sinceFlow < 2500
    ensures Replenishes(l) <==> Recorded(l).sinceFlow == 0
  {
  }

  lemma TookDelivery(o: Own, channel: uint16, handle: uint32, address: string, d: Delivery, n: nat)
    requires After(o.link, address, n)
    ensures var (o', key) := (TookAll(o, FramesOf(channel, handle, d)), LinkKey(channel, handle));
            && After(o'.link, address, n + 1)
            && o'.told == o.told + DeliveryEffects(key, address, Content(d), n + 1, SettledAs(d))
  {
    TookChunks(o, channel, handle, d.first);
    var (cs, t) := (Chunks(channel, handle, d.first), Transfer(channel, handle, d.last.id, false, d.last.payload));
    assert FramesOf(channel, handle, d)[..|cs|] == cs && FramesOf(channel, handle, d)[|cs|] == t;
    assert o.link.partial + Joined(d.first) == Joined(d.first);
    var before := TookAll(o, cs);
    hide Completing, Ended, DeliveryEffects, LinkKey, Chunks;
    EndedAfter(before.link, address, n, t.Key(), Content(d), t.DeliveryId());
  }

  lemma {:induction false} TookDeliveries(o: Own, channel: uint16, handle: uint32, address: string, ds: seq<Delivery>)
    requires After(o.link, address, 0)
    ensures var o' := TookAll(o, FramesOfAll(channel, handle, ds));
            After(o'.link, address, |ds|) && o'.told == o.told + Answered(LinkKey(channel, handle), address, ds)
    decreases |ds|
  {
    hide FramesOf, After, Content, Took, DeliveryEffects, LinkKey;
    if ds == [] {
      assert o.told + [] == o.told;
    } else {
      var k := |ds| - 1;
      var before := FramesOfAll(channel, handle, ds[..k]);
      TookDeliveries(o, channel, handle, address, ds[..k]);
      assert FramesOfAll(channel, handle, ds) == before + FramesOf(channel, handle, ds[k]);
      hide TookAll, FramesOfAll;
      TookAppend(o, before, FramesOf(channel, handle, ds[k]));
      TookDelivery(TookAll(o, before), channel, handle, address, ds[k], k);
      AppendAssoc(o.told, Answered(LinkKey(channel, handle), address, ds[..k]),
                  DeliveryEffects(LinkKey(channel, handle), address, Content(ds[k]), k + 1, SettledAs(ds[k])));
    }
  }

  /**
   Over every run in which a new link gets the frames of ds, other links coming, going and sending in
   between: each delivery is handed on whole and then settled, the client is granted 5000 again before
   every 2500th is settled, and nothing else is sent on the link.
   */
  lemma EachAnswered(c: ConnState, es: seq<Event>, channel: uint16, handle: uint32, address: string, ds: seq<Delivery>)
    requires Lasting(c) && Receives(c, es, channel, handle, ds)
    requires c.links[LinkKey(channel, handle)] == Fresh(address, true, false)
    ensures var (c', key) := (Run(c, es), LinkKey(channel, handle));
            Told(c'.effects, key) == Told(c.effects, key) + Answered(key, address, ds)
  {
    var key := LinkKey(channel, handle);
    OwnRun(c, es, key);
    hide Run, LinkKey;
    TookDeliveries(OwnView(c, key), channel, handle, address, ds);
  }

  // ---- A socket that fails ----

  /** What is written to the socket; the other effects stay inside the server. */
  predicate Written(e: Effect) {
    e.Attached? || e.Authorize? || e.Flow? || e.Disposition? || e.Detached?
  }

  function Writes(es: seq<Effect>): nat
    decreases |es|
  {
    if es == [] then 0 else Writes(es[..|es| - 1]) + if Written(es[|es| - 1]) then 1 else 0
  }

  /** The longest part from the front that writes no more than n times. */
  function Cut(es: seq<Effect>, n: nat): seq<Effect>
    decreases |es|
  {
    if Writes(es) <= n then es else Cut(es[..|es| - 1], n)
  }

  lemma {:induction false} WritesAppend(xs: seq<Effect>, ys: seq<Effect>)
    ensures Writes(xs + ys) == Writes(xs) + Writes(ys)
    decreases |ys|
  {
    if ys == [] {
      assert xs + ys == xs;
    } else {
      var k := |ys| - 1;
      assert (xs + ys)[..|xs| + k] == xs + ys[..k];
      WritesAppend(xs, ys[..k]);
    }
  }

  lemma {:induction false} CutAppend(xs: seq<Effect>, ys: seq<Effect>, n: nat)
    ensures Cut(xs + ys, n) == if Writes(xs) <= n then xs + Cut(ys, n - Writes(xs)) else Cut(xs, n)
    decreases |ys|
  {
    WritesAppend(xs, ys);
    if ys == [] {
      assert xs + ys == xs;
    } else if Writes(xs) + Writes(ys) > n {
      var k := |ys| - 1;
      assert (xs + ys)[..|xs| + k] == xs + ys[..k];
      CutAppend(xs, ys[..k], n);
    }
  }

  /** c over a socket that takes n writes more. */
  function Limited(c: ConnState, n: nat): ConnState {
    c.(good := Some(n))
  }

  /** f has done as much of es as n writes allow, after c; d has done all of it. */
  predicate DoneUpTo(c: ConnState, d: ConnState, f: ConnState, es: seq<Effect>, n: nat) {
    && f.effects == c.effects + Cut(es, n) && (f.alive <==> Writes(es) <= n)
    && (f.alive ==> f == Limited(d, n - Writes(es)))
  }

  lemma {:induction false} EmitLimited(c: ConnState, n: nat, es: seq<Effect>)
    requires Lasting(c)
    ensures DoneUpTo(c, Emit(c, es), Emit(Limited(c, n), es), es, n)
    decreases |es|
  {
    if es == [] {
      assert c.effects + [] == c.effects;
    } else {
      hide *;
      var init := es[..|es| - 1];
      EmitLimited(c, n, init);
      EmitLast(c, es);
      EmitLast(Limited(c, n), es);
      EmitFacts(c, init);
      StillLasting(c, Emit(c, init));
      OneLimited(c, Emit(c, init), Emit(Limited(c, n), init), es, n);
    }
  }

  lemma StillLasting(c: ConnState, d: ConnState)
    requires Lasting(c) && d.alive == c.alive && d.good.None?
    ensures Lasting(d)
  {
  }

  lemma OneLimited(c: ConnState, d: ConnState, f: ConnState, es: seq<Effect>, n: nat)
    requires es != [] && Lasting(d) && d.effects == c.effects + es[..|es| - 1]
    requires DoneUpTo(c, d, f, es[..|es| - 1], n)
    ensures DoneUpTo(c, EmitOne(d, es[|es| - 1]), EmitOne(f, es[|es| - 1]), es, n)
  {
    var (init, e) := (es[..|es| - 1], es[|es| - 1]);
    CutLast(es, n);
    hide Cut, Writes;
    assert es == init + [e] && c.effects + init + [e] == c.effects + es;
  }

  lemma EmitLast(c: ConnState, es: seq<Effect>)
    requires es != []
    ensures Emit(c, es) == EmitOne(Emit(c, es[..|es| - 1]), es[|es| - 1])
  {
  }

  lemma CutLast(es: seq<Effect>, n: nat)
    requires es != []
    ensures var k := |es| - 1;
            && Writes(es) == Writes(es[..k]) + (if Written(es[k]) then 1 else 0)
            && Cut(es, n) == (if Writes(es) <= n then es else Cut(es[..k], n))
            && (Writes(es[..k]) <= n ==> Cut(es[..k], n) == es[..k])
  {
  }

  /**
   A socket that takes n writes lets out exactly what one that lasts does before write n + 1, and the
   connection lasts if and only if there is none.
   */
  lemma {:induction false} FailsExactly(c: ConnState, es: seq<Event>, n: nat) returns (all: seq<Effect>)
    requires Lasting(c)
    ensures var (d, f) := (Run(c, es), Run(Limited(c, n), es));
            Lasting(d) && d.effects == c.effects + all && DoneUpTo(c, d, f, all, n)
    decreases |es|
  {
    if es == [] {
      all := [];
      assert c.effects + [] == c.effects;
    } else {
      var k := |es| - 1;
      var before := FailsExactly(c, es[..k], n);
      var d, f := Run(c, es[..k]), Run(Limited(c, n), es[..k]);
      var next := EffectsOf(d.links, es[k]);
      all := before + next;
      hide OnEvent, EffectsOf, LinksAfter, Run, Cut, Writes, Emit;
      OneMoreEvent(c, es, n);
      EventLasts(d, es[k]);
      CutAppend(before, next, n);
      WritesAppend(before, next);
      AppendAssoc(c.effects, before, next);
      if f.alive {
        EventEmits(d, es[k]);
        EventEmits(f, es[k]);
        EmitLimited(d.(links := LinksAfter(d.links, es[k])), n - Writes(before), next);
        AppendAssoc(c.effects, before, Cut(next, n - Writes(before)));
      } else {
        OverStays(f, es[k]);
      }
    }
  }

  lemma OneMoreEvent(c: ConnState, es: seq<Event>, n: nat)
    requires es != []
    ensures var k := |es| - 1;
            && Run(c, es) == OnEvent(Run(c, es[..k]), es[k])
            && Run(Limited(c, n), es) == OnEvent(Run(Limited(c, n), es[..k]), es[k])
  {
  }
}
