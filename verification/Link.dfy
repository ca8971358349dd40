/** One attached link: the state its mutex guards and the operations on it. */
module Link {
  import opened Bytes

  const SENDER_INITIAL_CREDIT: uint32 := 5000
  const REPLENISH_THRESHOLD: uint32 := 2500

  datatype LinkState = LinkState(address: string, clientIsSender: bool, isCBS: bool, credit: uint32,
                                 deliveryCount: uint32, closed: bool, received: uint32, sinceFlow: uint32,
                                 partial: bytes)

  function Fresh(address: string, clientIsSender: bool, isCBS: bool): LinkState {
    LinkState(address, clientIsSender, isCBS, 0, 0, false, 0, 0, [])
  }

  function Credited(l: LinkState, delta: uint32): LinkState {
    l.(credit := ToUint32(l.credit as int + delta))
  }

  /**
   The credit section 2.6.7 of AMQP 1.0 gives a sender on a flow: what the receiver granted, less what
   was sent since.
   */
  function StandardCredit(l: LinkState, deliveryCount: uint32, linkCredit: uint32): uint32 {
    ToUint32(deliveryCount as int + linkCredit - l.deliveryCount)
  }

  /**
   Adding the flow's credit gives the standard's credit exactly when the link already held what had
   been sent since the flow: for a flow that is up to date, exactly when it held none.
   */
  lemma CreditIsStandard(l: LinkState, deliveryCount: uint32, linkCredit: uint32)
    ensures Credited(l, linkCredit).credit == StandardCredit(l, deliveryCount, linkCredit) <==>
            l.credit == ToUint32(deliveryCount as int - l.deliveryCount)
    ensures deliveryCount == l.deliveryCount ==>
              (Credited(l, linkCredit).credit == StandardCredit(l, deliveryCount, linkCredit) <==> l.credit == 0)
  {
    hide ToUint32;
    SameSum(l.credit, deliveryCount as int - l.deliveryCount, linkCredit);
    assert l.credit as int + linkCredit == linkCredit + l.credit;
    Unwrapped(l.credit);
    Unwrapped(0);
  }

  lemma SameSum(x: int, y: int, k: int)
    ensures ToUint32(x + k) == ToUint32(y + k) <==> ToUint32(x) == ToUint32(y)
  {
    assert (x + k) - (y + k) == x - y;
  }

  lemma Unwrapped(x: uint32)
    ensures ToUint32(x) == x
  {
  }

  /** Consumes one unit of credit, unless the link has closed. */
  function Taken(l: LinkState): LinkState
    requires l.closed || l.credit > 0
  {
    if l.closed then l else l.(credit := l.credit - 1, deliveryCount := ToUint32(l.deliveryCount as int + 1))
  }

  function Replenishes(l: LinkState): bool {
    ToUint32(l.sinceFlow as int + 1) >= REPLENISH_THRESHOLD
  }

  function Recorded(l: LinkState): LinkState {
    l.(received := ToUint32(l.received as int + 1),
       sinceFlow := if Replenishes(l) then 0 else ToUint32(l.sinceFlow as int + 1))
  }

  class Link {
    const address: string
    const clientIsSender: bool
    const isCBS: bool
    var credit: uint32
    var deliveryCount: uint32
    var closed: bool
    var received: uint32
    var sinceFlow: uint32
    var partial: bytes

    function State(): LinkState
      reads this
    {
      LinkState(address, clientIsSender, isCBS, credit, deliveryCount, closed, received, sinceFlow, partial)
    }

    constructor (address: string, clientIsSender: bool, isCBS: bool)
      ensures State() == Fresh(address, clientIsSender, isCBS)
    {
      this.address, this.clientIsSender, this.isCBS := address, clientIsSender, isCBS;
      credit, deliveryCount, closed, received, sinceFlow, partial := 0, 0, false, 0, 0, [];
    }

    method AddCredit(delta: uint32)
      modifies this`credit
      ensures State() == Credited(old(State()), delta)
    {
      credit := ToUint32(credit as int + delta);
    }

    method DrainCredit() returns (count: uint32)
      modifies this`credit
      ensures State() == old(State()).(credit := 0) && count == old(deliveryCount)
    {
      credit := 0;
      count := deliveryCount;
    }

    /** Called when the wait is over: there is credit or the link has closed. */
    method TakeCredit() returns (ok: bool)
      requires closed || credit > 0
      modifies this`credit, this`deliveryCount
      ensures State() == Taken(old(State())) && ok == !old(closed)
    {
      if closed {
        return false;
      }
      credit := credit - 1;
      deliveryCount := ToUint32(deliveryCount as int + 1);
      ok := true;
    }

    method AppendPartial(chunk: bytes)
      modifies this`partial
      ensures State() == old(State()).(partial := old(partial) + chunk)
    {
      partial := partial + chunk;
    }

    /** The whole delivery; the buffer is empty afterwards whichever branch was taken. */
    method TakePartial(final: bytes) returns (msg: bytes)
      modifies this`partial
      ensures msg == old(partial) + final
      ensures State() == old(State()).(partial := [])
    {
      if |partial| == 0 {
        assert partial + final == final;
        return final;
      }
      msg := partial + final;
      partial := [];
    }

    method RecordReceived() returns (replenish: bool, count: uint32)
      modifies this`received, this`sinceFlow
      ensures State() == Recorded(old(State()))
      ensures replenish == Replenishes(old(State())) && count == received
    {
      received := ToUint32(received as int + 1);
      sinceFlow := ToUint32(sinceFlow as int + 1);
      if sinceFlow >= REPLENISH_THRESHOLD {
        sinceFlow := 0;
        return true, received;
      }
      return false, received;
    }

    method Close()
      modifies this`closed
      ensures State() == old(State()).(closed := true)
    {
      if !closed {
        closed := true;
      }
    }
  }
}
