/**
 The messages of one storage queue: visibility timeouts, pop receipts and times to live.
 Each operation first drops what has outlived its time, as looking the queue up does, and then reads the clock again.
 */
module QueueStore {
  import opened Sequences
  import opened Wrappers

  /** `expires` is None for a message that lives for ever. */
  datatype Message = Message(id: string, text: string, inserted: int, expires: Option<int>, nextVisible: int,
                             receipt: string, count: nat)
  {
    predicate Visible(now: int) {
      now >= nextVisible
    }

    predicate Expired(now: int) {
      expires.Some? && now > expires.value
    }
  }

  /** Seven days, in the clock's unit of nanoseconds. */
  const DEFAULT_TTL := 7 * 24 * 3600 * 1_000_000_000

  datatype Outcome = Done | MessageNotFound | ReceiptMismatch

  // ---- What the operations do to the messages ----

  function Unexpired(now: int): Message -> bool {
    (m: Message) => !m.Expired(now)
  }

  function VisibleAt(now: int): Message -> bool {
    (m: Message) => m.Visible(now)
  }

  function Live(ms: seq<Message>, now: int): seq<Message> {
    Filter(Unexpired(now), ms)
  }

  function Expiry(ttl: int, now: int): Option<int> {
    if ttl < 0 then None else if ttl == 0 then Some(now + DEFAULT_TTL) else Some(now + ttl)
  }

  function NewMessage(id: string, text: string, now: int, delay: int, ttl: int): Message {
    Message(id, text, now, Expiry(ttl, now), now + delay, "", 0)
  }

  function TakenOnce(m: Message, receipt: string, until: int): Message {
    m.(count := m.count + 1, receipt := receipt, nextVisible := until)
  }

  /** The messages after up to |receipts| visible ones were taken, and those taken. */
  function Take(ms: seq<Message>, receipts: seq<string>, now: int, until: int): (seq<Message>, seq<Message>)
    decreases |ms|
  {
    if ms == [] || receipts == [] then (ms, [])
    else if !ms[0].Visible(now) then
      var r := Take(ms[1..], receipts, now, until);
      ([ms[0]] + r.0, r.1)
    else
      var m := TakenOnce(ms[0], receipts[0], until);
      var r := Take(ms[1..], receipts[1..], now, until);
      ([m] + r.0, [m] + r.1)
  }

  function Visible(ms: seq<Message>, now: int): seq<Message> {
    Filter(VisibleAt(now), ms)
  }

  function First<T>(s: seq<T>, num: int): (r: seq<T>)
    ensures r <= s && |r| == if num <= 0 then 0 else if num < |s| then num else |s|
  {
    if num <= 0 then [] else if num < |s| then s[..num] else s
  }

  /** The position of the message with this id, or |ms|. */
  function Find(ms: seq<Message>, id: string): (i: nat)
    ensures i <= |ms|
    ensures i < |ms| ==> ms[i].id == id
    ensures forall j | 0 <= j < i :: ms[j].id != id
  {
    if ms == [] || ms[0].id == id then 0 else 1 + Find(ms[1..], id)
  }

  function Check(ms: seq<Message>, id: string, receipt: string): Outcome {
    var i := Find(ms, id);
    if i == |ms| then MessageNotFound else if ms[i].receipt != receipt then ReceiptMismatch else Done
  }

  function Deleted(ms: seq<Message>, id: string, receipt: string): seq<Message> {
    var i := Find(ms, id);
    if Check(ms, id, receipt).Done? then ms[..i] + ms[i + 1..] else ms
  }

  function UpdatedMessage(m: Message, text: string, receipt: string, until: int): Message {
    m.(text := if text != "" then text else m.text, receipt := receipt, nextVisible := until)
  }

  function Updated(ms: seq<Message>, id: string, receipt: string, text: string, next: string, until: int): seq<Message> {
    var i := Find(ms, id);
    if Check(ms, id, receipt).Done? then ms[i := UpdatedMessage(ms[i], text, next, until)] else ms
  }

  // ---- The queue as it runs ----

  class Queue {
    var buf: array<Message>
    var len: nat

    ghost predicate Valid()
      reads this
    {
      len <= buf.Length
    }

    ghost function Contents(): seq<Message>
      reads this, buf
      requires Valid()
    {
      buf[..len]
    }

    constructor ()
      ensures Valid() && Contents() == [] && fresh(buf)
    {
      buf, len := new Message[0], 0;
    }

    /** Compacts the messages over their own array. */
    method EvictExpired(now: int)
      requires Valid()
      modifies this`len, buf
      ensures Valid() && Contents() == Live(old(Contents()), now)
    {
      hide Filter;
      ghost var was := Contents();
      var kept := 0;
      FilterNothing(Unexpired(now));
      assert was[..0] == [] && buf[..0] == [];
      for i := 0 to len
        invariant kept <= i <= len == |was| && buf[..kept] == Filter(Unexpired(now), was[..i])
        invariant forall k | i <= k < len :: buf[k] == was[k]
      {
        var m := buf[i];
        FilterNext(Unexpired(now), was, i);
        if !m.Expired(now) {
          ghost var before := buf[..kept];
          buf[kept] := m;
          kept := kept + 1;
          assert buf[..kept] == before + [m];
        }
      }
      assert was[..len] == was;
      len := kept;
    }

    method Append(m: Message)
      requires Valid()
      modifies this, buf
      ensures Valid() && (buf == old(buf) || fresh(buf))
      ensures Contents() == old(Contents()) + [m]
    {
      if len == buf.Length {
        var grown := new Message[2 * len + 1](i requires 0 <= i reads this, buf =>
          if i < len <= buf.Length then buf[i] else m);
        assert grown[..len] == buf[..len];
        buf := grown;
      }
      buf[len] := m;
      len := len + 1;
    }

    method Enqueue(id: string, text: string, delay: int, ttl: int, swept: int, now: int) returns (m: Message)
      requires Valid()
      modifies this, buf
      ensures Valid() && (buf == old(buf) || fresh(buf))
      ensures m == NewMessage(id, text, now, delay, ttl)
      ensures Contents() == Live(old(Contents()), swept) + [m]
    {
      EvictExpired(swept);
      m := Message(id, text, now, None, now + delay, "", 0);
      if ttl < 0 {
      } else if ttl == 0 {
        m := m.(expires := Some(now + DEFAULT_TTL));
      } else {
        m := m.(expires := Some(now + ttl));
      }
      Append(m);
    }

    /** `receipts` are the random receipts, one for each message that may be taken. */
    method Dequeue(num: int, timeout: int, receipts: seq<string>, swept: int, now: int) returns (out: seq<Message>)
      requires Valid()
      requires |receipts| == if num <= 0 then 0 else num
      modifies this`len, buf
      ensures Valid()
      ensures (Contents(), out) == Take(Live(old(Contents()), swept), receipts, now, now + timeout)
    {
      hide Take, Live;
      EvictExpired(swept);
      ghost var was := Contents();
      ghost var goal := Take(was, receipts, now, now + timeout);
      out := [];
      var i := 0;
      assert receipts[0..] == receipts && was[0..] == was && [] + goal.0 == goal.0 && [] + goal.1 == goal.1;
      while i < len
        invariant i <= len == |was| && |out| <= |receipts|
        invariant buf[i..len] == was[i..]
        invariant goal.0 == buf[..i] + Take(was[i..], receipts[|out|..], now, now + timeout).0
        invariant goal.1 == out + Take(was[i..], receipts[|out|..], now, now + timeout).1
      {
        if |out| >= num {
          break;
        }
        var m := buf[i];
        TakeStep(was, i, buf[..i], receipts, out, now, now + timeout);
        if !m.Visible(now) {
          assert buf[..i + 1] == buf[..i] + [m] && buf[i + 1..len] == was[i + 1..];
          i := i + 1;
          continue;
        }
        m := m.(count := m.count + 1);
        m := m.(receipt := receipts[|out|]);
        m := m.(nextVisible := now + timeout);
        ghost var done := buf[..i];
        buf[i] := m;
        assert buf[..i + 1] == done + [m] && buf[i + 1..len] == was[i + 1..];
        out := out + [m];
        i := i + 1;
      }
      TakeEnds(was[i..], receipts[|out|..], buf[..i], out, now, now + timeout);
      assert buf[..i] + was[i..] == buf[..len];
    }

    method Peek(num: int, swept: int, now: int) returns (out: seq<Message>)
      requires Valid()
      modifies this`len, buf
      ensures Valid() && Contents() == Live(old(Contents()), swept)
      ensures out == First(Visible(Contents(), now), num)
    {
      hide Filter;
      EvictExpired(swept);
      ghost var was := Contents();
      out := [];
      var i := 0;
      FilterNothing(VisibleAt(now));
      assert was[..0] == [];
      while i < len
        invariant i <= len == |was| && buf[..len] == was
        invariant out == Filter(VisibleAt(now), was[..i]) && (num > 0 ==> |out| <= num) && (num <= 0 ==> out == [])
      {
        FilterSplit(VisibleAt(now), was[..i], was[i..]);
        assert was[..i] + was[i..] == was;
        if |out| >= num {
          break;
        }
        FilterNext(VisibleAt(now), was, i);
        if !buf[i].Visible(now) {
          i := i + 1;
          continue;
        }
        out := out + [buf[i]];
        i := i + 1;
      }
      assert was[..|was|] == was;
    }

    /** The loop both DeleteMessage and UpdateMessage search with. */
    method Search(id: string) returns (i: nat)
      requires Valid()
      ensures i <= len && i == Find(Contents(), id)
    {
      i := 0;
      while i < len && buf[i].id != id
        invariant i <= len && forall j | 0 <= j < i :: buf[j].id != id
      {
        i := i + 1;
      }
    }

    method DeleteMessage(id: string, receipt: string, swept: int) returns (r: Outcome)
      requires Valid()
      modifies this`len, buf
      ensures Valid()
      ensures var ms := Live(old(Contents()), swept);
              r == Check(ms, id, receipt) && Contents() == Deleted(ms, id, receipt)
    {
      hide Filter, Find;
      EvictExpired(swept);
      var i := Search(id);
      if i == len {
        return MessageNotFound;
      }
      if buf[i].receipt != receipt {
        return ReceiptMismatch;
      }
      RemoveAt(i);
      return Done;
    }

    /** The later messages each move one place down. */
    method RemoveAt(i: nat)
      requires Valid() && i < len
      modifies this`len, buf
      ensures Valid() && Contents() == old(Contents()[..i] + Contents()[i + 1..])
    {
      ghost var was := Contents();
      for k := i + 1 to len
        invariant len == |was|
        invariant forall j | 0 <= j < i :: buf[j] == was[j]
        invariant forall j | i <= j < k - 1 :: buf[j] == was[j + 1]
        invariant forall j | k <= j < len :: buf[j] == was[j]
      {
        buf[k - 1] := buf[k];
      }
      len := len - 1;
      assert buf[..len] == was[..i] + was[i + 1..];
    }

    method UpdateMessage(id: string, receipt: string, text: string, timeout: int, next: string, swept: int, now: int)
      returns (r: Outcome)
      requires Valid()
      modifies this`len, buf
      ensures Valid()
      ensures var ms := Live(old(Contents()), swept);
              r == Check(ms, id, receipt) && Contents() == Updated(ms, id, receipt, text, next, now + timeout)
    {
      hide Filter, Find;
      EvictExpired(swept);
      var i := Search(id);
      if i == len {
        return MessageNotFound;
      }
      if buf[i].receipt != receipt {
        return ReceiptMismatch;
      }
      if text != "" {
        buf[i] := buf[i].(text := text);
      }
      buf[i] := buf[i].(receipt := next);
      buf[i] := buf[i].(nextVisible := now + timeout);
      return Done;
    }

    method ClearMessages()
      requires Valid()
      modifies this
      ensures Valid() && Contents() == [] && fresh(buf)
    {
      buf, len := new Message[0], 0;
    }
  }

  lemma TakeStep(was: seq<Message>, i: nat, done: seq<Message>, receipts: seq<string>, out: seq<Message>,
                 now: int, until: int)
    requires i < |was| && |out| < |receipts|
    ensures var (m, all) := (was[i], Take(was[i..], receipts[|out|..], now, until));
            if !m.Visible(now) then
              var next := Take(was[i + 1..], receipts[|out|..], now, until);
              done + all.0 == done + [m] + next.0 && out + all.1 == out + next.1
            else
              var next := Take(was[i + 1..], receipts[|out| + 1..], now, until);
              var m' := TakenOnce(m, receipts[|out|], until);
              done + all.0 == done + [m'] + next.0 && out + all.1 == out + [m'] + next.1
  {
    assert was[i..][1..] == was[i + 1..] && receipts[|out|..][1..] == receipts[|out| + 1..];
  }

  lemma TakeEnds(ms: seq<Message>, receipts: seq<string>, done: seq<Message>, out: seq<Message>, now: int, until: int)
    requires ms == [] || receipts == []
    ensures Take(ms, receipts, now, until) == (ms, []) && out + [] == out
  {
  }

  /** A dequeue takes the first visible messages in the queue's order, one per receipt. */
  lemma {:induction false} TakeFirst(ms: seq<Message>, receipts: seq<string>, now: int, until: int)
    ensures var (out, chosen) := (Take(ms, receipts, now, until).1, First(Visible(ms, now), |receipts|));
            |out| == |chosen| && forall k | 0 <= k < |out| :: out[k] == TakenOnce(chosen[k], receipts[k], until)
    decreases |ms|
  {
    hide First;
    if receipts == [] {
      FirstNone(Visible(ms, now));
    } else if ms == [] {
      FirstEmpty<Message>(|receipts|);
    } else if ms[0].Visible(now) {
      TakeFirst(ms[1..], receipts[1..], now, until);
      FirstCons(ms[0], Visible(ms[1..], now), |receipts|);
      assert Visible(ms, now) == [ms[0]] + Visible(ms[1..], now);
      var (out, chosen) := (Take(ms[1..], receipts[1..], now, until).1, First(Visible(ms[1..], now), |receipts| - 1));
      forall k | 0 < k <= |out| ensures ([TakenOnce(ms[0], receipts[0], until)] + out)[k] ==
                                        TakenOnce(([ms[0]] + chosen)[k], receipts[k], until)
      {
        assert receipts[k] == receipts[1..][k - 1];
      }
    } else {
      TakeFirst(ms[1..], receipts, now, until);
      assert [] + Visible(ms[1..], now) == Visible(ms[1..], now);
    }
  }

  /** The messages a dequeue does not take stay as they are, and all keep their places. */
  lemma {:induction false} TakeLeaves(ms: seq<Message>, receipts: seq<string>, now: int, until: int)
    ensures var (rest, out) := Take(ms, receipts, now, until);
            |rest| == |ms| &&
            forall k | 0 <= k < |ms| :: rest[k] == ms[k] || (ms[k].Visible(now) && rest[k].id == ms[k].id && rest[k] in out)
    decreases |ms|
  {
    if ms != [] && receipts != [] {
      TakeLeaves(ms[1..], if ms[0].Visible(now) then receipts[1..] else receipts, now, until);
    }
  }

  lemma FirstNone<T>(s: seq<T>)
    ensures First(s, 0) == []
  {
  }

  lemma FirstEmpty<T>(num: int)
    ensures First<T>([], num) == []
  {
  }

  lemma FirstCons<T>(x: T, s: seq<T>, num: int)
    requires num > 0
    ensures First([x] + s, num) == [x] + First(s, num - 1)
  {
  }
}
