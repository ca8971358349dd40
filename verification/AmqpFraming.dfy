/** Frames this server never writes: longer headers, heartbeats, other descriptors, and headers that are refused. */
module AmqpFraming {
  import opened Bytes
  import opened AmqpTypes
  import opened AmqpCodec
  import opened AmqpCodecProofs
  import opened AmqpFrame
  import opened AmqpEcho

  /** A header that gives the frame's size, and its own length in words of four bytes. */
  function Lead(size: uint32, words: byte, typ: byte, channel: uint16): (h: bytes)
    ensures |h| == 8
  {
    Be(4, size) + [words, typ] + Be(2, channel)
  }

  lemma LeadFields(size: uint32, words: byte, typ: byte, channel: uint16, tail: bytes)
    ensures var s := Lead(size, words, typ, channel) + tail;
            && |s| == 8 + |tail| && FromBe(s[..4]) == size && s[4] == words && s[5] == typ
            && FromBe(s[6..8]) == channel && s[8..] == tail
  {
    var s := Lead(size, words, typ, channel) + tail;
    assert Pow256(2) == 0x1_0000 && Pow256(4) == 0x1_0000_0000;
    hide FromBe, Be;
    assert s[..4] == Be(4, size) && s[6..8] == Be(2, channel);
    BeInverse(4, size);
    BeInverse(2, channel);
  }

  /** What a header by itself decides, in this order: the size, the header's length, what has arrived, and both together. */
  lemma HeaderDecides(size: uint32, words: byte, typ: byte, channel: uint16, tail: bytes)
    ensures var r := ParseFrame(Lead(size, words, typ, channel) + tail);
            && (size < 8 ==> r == FrameErr(InvalidSize))
            && (size > 65536 ==> r == FrameErr(FrameTooLarge))
            && (8 <= size <= 65536 && words < 2 ==> r == FrameErr(InvalidOffset))
            && (8 <= size <= 65536 && words >= 2 && 8 + |tail| < size ==> r == FrameErr(ShortRead))
            && (8 <= size <= 65536 && words >= 2 && 8 + |tail| >= size && 4 * (words as int) > size ==>
                  r == FrameErr(OffsetPastBody))
  {
    hide FromBe, Lead, ParseBody;
    LeadFields(size, words, typ, channel, tail);
  }

  lemma NoHeader(s: bytes)
    requires |s| < 8
    ensures ParseFrame(s) == FrameErr(ShortRead)
  {
  }

  /** A frame with `more` between the first eight bytes of its header and its body, and what follows it. */
  function Framed(typ: byte, channel: uint16, more: bytes, body: bytes, rest: bytes): bytes
    requires Fits(more, body)
  {
    var size, words := 8 + |more| + |body|, 2 + |more| / 4;
    Lead(size, words, typ, channel) + (more + body + rest)
  }

  /** The header is whole words that can be counted in a byte, and the frame no longer than the maximum. */
  predicate Fits(more: bytes, body: bytes) {
    |more| % 4 == 0 && |more| / 4 <= 253 && 8 + |more| + |body| <= 65536
  }

  /** A longer header is skipped: the frame is what its body says. */
  lemma LongerHeader(typ: byte, channel: uint16, more: bytes, body: bytes, rest: bytes)
    requires Fits(more, body)
    ensures ParseFrame(Framed(typ, channel, more, body, rest)) ==
            WithSize(ParseBody(typ, channel, body), 8 + |more| + |body|)
  {
    hide FromBe, Lead, ParseBody;
    var size, words, tail := 8 + |more| + |body|, 2 + |more| / 4, more + body + rest;
    LeadFields(size, words, typ, channel, tail);
    var s := Lead(size, words, typ, channel) + tail;
    assert tail[|more|..|more| + |body|] == body;
    assert s[8 + |more|..size] == tail[|more|..|more| + |body|];
  }

  /** A frame without a body is a heartbeat: no performative, and its channel is kept. */
  lemma Heartbeat(typ: byte, channel: uint16, more: bytes, rest: bytes)
    requires Fits(more, [])
    ensures ParseFrame(Framed(typ, channel, more, [], rest)) == FrameOk(Frame(typ, channel, 0, [], []), 8 + |more|)
  {
    hide Framed, Read, ParseFrame;
    LongerHeader(typ, channel, more, [], rest);
  }

  /** The performative of a body: its descriptor's number, of any width or else 0, and its list's items or none. */
  predicate Names(f: Frame, d: Value, v: Value) {
    && (d.Ulong? ==> f.code == d.u64) && (d.Uint? ==> f.code == d.u32) && (d.Ubyte? ==> f.code == d.u8)
    && (!d.Ulong? && !d.Uint? && !d.Ubyte? ==> f.code == 0)
    && (v.List? ==> f.fields == NormItems(v.items)) && (!v.List? ==> f.fields == [])
  }

  /** A frame of any header length holds the performative its body names, and the bytes behind it. */
  lemma AnyPerformative(typ: byte, channel: uint16, more: bytes, d: Value, v: Value, payload: bytes, rest: bytes)
    requires Sendable(d) && Sendable(v) && Fits(more, Encode(Described(d, v)) + payload)
    ensures var body := Encode(Described(d, v)) + payload;
            var r := ParseFrame(Framed(typ, channel, more, body, rest));
            && r.FrameOk? && r.used == 8 + |more| + |body| && Names(r.frame, d, v)
            && r.frame.typ == typ && r.frame.channel == channel && r.frame.payload == payload
  {
    PerformativeBody(typ, channel, d, v, payload);
    hide Framed, ParseFrame, ParseBody, Encode, Encodable, LengthsFit, KeysHashable, Names;
    LongerHeader(typ, channel, more, Encode(Described(d, v)) + payload, rest);
  }

  lemma PerformativeBody(typ: byte, channel: uint16, d: Value, v: Value, payload: bytes)
    requires Sendable(d) && Sendable(v)
    ensures Encodable(Described(d, v))
    ensures var r := ParseBody(typ, channel, Encode(Described(d, v)) + payload);
            && r.FrameOk? && Names(r.frame, d, v)
            && r.frame.typ == typ && r.frame.channel == channel && r.frame.payload == payload
  {
    var x := Encode(Described(d, v));
    assert Sendable(Described(d, v));
    NormParts(d, v);
    hide Read, Encode, Norm, Encodable, LengthsFit, KeysHashable;
    RoundTrip(Described(d, v), payload);
    assert (x + payload)[|x|..] == payload;
  }

  lemma NormParts(d: Value, v: Value)
    ensures Norm(Described(d, v)) == Described(Norm(d), Norm(v))
    ensures d.Ulong? || d.Uint? || d.Ubyte? ==> Norm(d) == d
    ensures (Norm(d).Ulong? <==> d.Ulong?) && (Norm(d).Uint? <==> d.Uint?) && (Norm(d).Ubyte? <==> d.Ubyte?)
    ensures v.List? ==> Norm(v) == List(NormItems(v.items))
    ensures Norm(v).List? <==> v.List?
  {
  }

  /** A body that is no described value is refused. */
  lemma NotDescribedIsRefused(typ: byte, channel: uint16, more: bytes, v: Value, payload: bytes, rest: bytes)
    requires Sendable(v) && !v.Described? && Fits(more, Encode(v) + payload)
    ensures ParseFrame(Framed(typ, channel, more, Encode(v) + payload, rest)) == FrameErr(NotDescribed)
  {
    UndescribedBody(typ, channel, v, payload);
    hide Framed, ParseFrame, ParseBody, Encode, Encodable, LengthsFit, KeysHashable;
    LongerHeader(typ, channel, more, Encode(v) + payload, rest);
  }

  lemma UndescribedBody(typ: byte, channel: uint16, v: Value, payload: bytes)
    requires Sendable(v) && !v.Described?
    ensures ParseBody(typ, channel, Encode(v) + payload) == FrameErr(NotDescribed)
  {
    assert !Norm(v).Described?;
    hide Read, Encode, Norm, Encodable, LengthsFit, KeysHashable;
    RoundTrip(v, payload);
  }

  /** The handle of an attach is found whichever unsigned or wide signed integer carries it; anything else is 0. */
  lemma AnyHandle(n: uint32, v: Value)
    ensures AsUint32(Uint(n)) == n && AsUint32(Ulong(n)) == n
    ensures n < 65536 ==> AsUint32(Ushort(n)) == n
    ensures n < 256 ==> AsUint32(Ubyte(n)) == n
    ensures n < 0x8000_0000 ==> AsUint32(Int(n)) == n && AsUint32(Long(n)) == n
    ensures !v.Uint? && !v.Ulong? && !v.Ushort? && !v.Ubyte? && !v.Int? && !v.Long? ==> AsUint32(v) == 0
  {
  }

  /** The reply to an attach has the client's name, handle, settle modes, source and target, and the other role. */
  lemma ReplyMirrors(f: Frame, name: bytes, handle: uint32, receiver: bool)
    requires |f.fields| >= 3 && f.fields[0] == Str(name) && f.fields[2] == Bool(receiver)
    requires f.fields[1] in {Uint(handle), Ulong(handle)}
    ensures var g := AttachReply(f);
            && g.channel == f.channel && g.code == 0x12 && |g.fields| == 10
            && g.fields[..3] == [Str(name), Uint(handle), Bool(!receiver)]
            && (forall k | 3 <= k < 7 :: g.fields[k] == if k < |f.fields| then f.fields[k] else Null)
            && g.fields[7..] == [Null, Bool(false), Uint(0)]
  {
    AnyHandle(handle, Null);
  }
}
