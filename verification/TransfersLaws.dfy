/** What an attach, a detach and a request to the $cbs node make the server do. */
module TransfersLaws {
  import opened Bytes
  import opened Link
  import opened Strings
  import opened Transfers

  /** The address has the management node's name in it. */
  predicate IsManagement(address: string) {
    exists i | 0 <= i < |address| :: OccursAt(address, "$management", i)
  }

  lemma ManagementIndex(address: string)
    ensures Index(address, "$management") < 0 <==> !IsManagement(address)
  {
    var i := Index(address, "$management");
    if i >= 0 { assert OccursAt(address, "$management", i); }
  }

  /** A connection that lasts. */
  predicate Lasting(c: ConnState) {
    c.alive && c.good.None?
  }

  /**
   An attach is answered. A sender is granted 5000 credits; a receiver gets a delivery loop unless it is
   the $cbs node's, and is a subscription unless it is that or a management link.
   */
  lemma AttachDoes(c: ConnState, channel: uint16, handle: uint32, address: string, sender: bool)
    requires Lasting(c)
    ensures var (key, c') := (LinkKey(channel, handle), OnEvent(c, Attach(channel, handle, address, sender)));
            && Lasting(c')
            && c'.links == c.links[key := Fresh(address, sender, address == "$cbs")]
            && (sender ==> c'.effects == c.effects + [Attached(key), Flow(key, 0, 5000)])
            && (!sender && address == "$cbs" ==> c'.effects == c.effects + [Attached(key)])
            && (!sender && address != "$cbs" && IsManagement(address) ==>
                  c'.effects == c.effects + [Attached(key), StartLoop(key, address)])
            && (!sender && address != "$cbs" && !IsManagement(address) ==>
                  c'.effects == c.effects + [Register(key, address), Attached(key), StartLoop(key, address)])
  {
    hide Emit, IsManagement;
    ManagementIndex(address);
    var key := LinkKey(channel, handle);
    var linked := c.(links := c.links[key := Fresh(address, sender, address == "$cbs")]);
    EmitFacts(linked, Attaching(key, address, sender));
    hide Index;
    var start: seq<Effect> := [];
    assert start + [Attached(key)] + [Flow(key, 0, 5000)] == [Attached(key), Flow(key, 0, 5000)];
    assert start + [Attached(key)] + [] == [Attached(key)];
    assert start + [Attached(key)] + [StartLoop(key, address)] == [Attached(key), StartLoop(key, address)];
    assert [Register(key, address)] + [Attached(key)] + [StartLoop(key, address)]
        == [Register(key, address), Attached(key), StartLoop(key, address)];
  }

  /** A detach is answered, and what comes for the link afterwards does nothing. */
  lemma DetachForgets(c: ConnState, channel: uint16, handle: uint32, t: Transfer)
    requires Lasting(c) && t.channel == channel && t.handle == handle
    ensures var (key, c') := (LinkKey(channel, handle), OnEvent(c, Detach(channel, handle)));
            && Lasting(c') && key !in c'.links && c'.effects == c.effects + [Detached(key)]
            && (forall k | k != key :: k in c'.links <==> k in c.links)
            && (forall k | k != key && k in c.links :: c'.links[k] == c.links[k])
            && OnEvent(c', Arrive(t)) == c'
  {
    hide Emit, LinkKey;
    var key := LinkKey(channel, handle);
    EmitFacts(c.(links := c.links - {key}), [Detached(key)]);
  }

  /** The client takes answers of the $cbs node on this session. */
  predicate TakesAnswers(links: map<Key, LinkState>, channel: uint16) {
    exists k | k in links :: links[k].isCBS && !links[k].clientIsSender && k / 0x1_0000_0000 == channel
  }

  /** A completed request is answered exactly when the client takes answers on its session, and settled either way. */
  lemma RequestAnswered(c: ConnState, t: Transfer)
    requires Lasting(c) && t.Key() in c.links && c.links[t.Key()].isCBS && !t.more
    ensures var (l, c') := (c.links[t.Key()], OnEvent(c, Arrive(t)));
            && Lasting(c') && c'.links == c.links[t.Key() := l.(partial := [])]
            && c'.effects == c.effects
               + (if TakesAnswers(c.links, t.channel) then [Authorize(t.Key(), l.partial + t.payload)] else [])
               + [Disposition(t.Key(), t.DeliveryId())]
  {
    hide Emit, Transfer.Key, Transfer.DeliveryId;
    var key := t.Key();
    var l := c.links[key];
    var answer := HasCbsReceiver(c.links, t.channel);
    assert answer == TakesAnswers(c.links, t.channel) by {
      if k :| k in c.links && IsCbsReceiver(k, c.links[k], t.channel) {
        assert c.links[k].isCBS && !c.links[k].clientIsSender && k / 0x1_0000_0000 == t.channel;
      }
      if k :| k in c.links && c.links[k].isCBS && !c.links[k].clientIsSender && k / 0x1_0000_0000 == t.channel {
        assert IsCbsReceiver(k, c.links[k], t.channel);
      }
    }
    hide HasCbsReceiver, TakesAnswers;
    var es := Completing(key, l, l.partial + t.payload, t.DeliveryId(), answer);
    EmitFacts(c.(links := c.links[key := Ended(l)]), es);
    var first := if answer then [Authorize(key, l.partial + t.payload)] else [];
    assert es == first + [Disposition(key, t.DeliveryId())];
    AppendAssoc(c.effects, first, [Disposition(key, t.DeliveryId())]);
  }

  /** A receiver of the $cbs node attached on a session takes its answers there, and only there. */
  lemma ReceiverTakes(links: map<Key, LinkState>, channel: uint16, handle: uint32, other: uint16)
    ensures var after := links[LinkKey(channel, handle) := Fresh("$cbs", false, true)];
            && TakesAnswers(after, channel)
            && (other != channel && !TakesAnswers(links, other) ==> !TakesAnswers(after, other))
  {
    var key := LinkKey(channel, handle);
    var after := links[key := Fresh("$cbs", false, true)];
    assert key / 0x1_0000_0000 == channel;
    assert after[key].isCBS && !after[key].clientIsSender;
    if other != channel && TakesAnswers(after, other) {
      var k :| k in after && after[k].isCBS && !after[k].clientIsSender && k / 0x1_0000_0000 == other;
      assert k in links && links[k] == after[k];
    }
  }
}
