/** AMQP 1.0 frames (section 2.3 of the standard): a performative and the payload behind it. */
module AmqpFrame {
  import opened Bytes
  import opened AmqpTypes
  import opened AmqpCodec
  import opened AmqpCodecProofs
  import opened AmqpMaps
  import AmqpCoder

  const MAX_FRAME_SIZE := 0x1_0000

  datatype Frame = Frame(typ: byte, channel: uint16, code: uint64, fields: seq<Value>, payload: bytes) {
    /** The i-th performative field, Null when absent. */
    function Field(i: int): Value {
      if i < 0 || i >= |fields| then Null else fields[i]
    }
  }

  datatype FrameError =
    | ShortRead
    | InvalidSize
    | FrameTooLarge
    | InvalidOffset
    | OffsetPastBody
    | BadBody(cause: DecodeError)
    | NotDescribed

  datatype FrameResult = FrameOk(frame: Frame, used: nat) | FrameErr(error: FrameError)

  // ---- Writing ----

  /** A performative without its trailing absent fields. */
  function Trim(fields: seq<Value>): (r: seq<Value>)
    ensures r <= fields
    ensures r != [] ==> r[|r| - 1] != Null
    ensures forall i | |r| <= i < |fields| :: fields[i] == Null
  {
    if |fields| > 0 && fields[|fields| - 1] == Null then Trim(fields[..|fields| - 1]) else fields
  }

  function EncodeDescribedList(code: uint64, fields: seq<Value>): bytes
    requires Encodable(List(fields))
  {
    [0x00] + ([0x53, ToByte(code)] + EncodeList(Trim(fields)))
  }

  function FrameSize(f: Frame): nat
    requires Encodable(List(f.fields))
  {
    8 + |EncodeDescribedList(f.code, f.fields)| + |f.payload|
  }

  function FrameHeader(size: uint32, typ: byte, channel: uint16): (h: bytes)
    ensures |h| == 8
  {
    Be(4, size) + [2, typ] + Be(2, channel)
  }

  function EncodeFrame(f: Frame): bytes
    requires Encodable(List(f.fields))
  {
    FrameHeader(ToUint32(FrameSize(f)), f.typ, f.channel) + (EncodeDescribedList(f.code, f.fields) + f.payload)
  }

  // ---- Reading ----

  function DescriptorCode(d: Value): uint64 {
    match d
    case Ulong(n) => n
    case Uint(n) => n
    case Ubyte(n) => n
    case _ => 0
  }

  function ParseFrame(s: bytes): (r: FrameResult)
    ensures r.FrameOk? ==> 8 <= r.used <= |s|
  {
    if |s| < 8 then FrameErr(ShortRead) else
    var size, doff := FromBe(s[..4]), (s[4] as int) * 4;
    assert Pow256(2) == 0x1_0000;
    if size < 8 then FrameErr(InvalidSize)
    else if size > MAX_FRAME_SIZE then FrameErr(FrameTooLarge)
    else if doff < 8 then FrameErr(InvalidOffset)
    else if |s| < size then FrameErr(ShortRead)
    else if doff > size then FrameErr(OffsetPastBody)
    else
      match ParseBody(s[5], FromBe(s[6..8]), s[doff..size])
      case FrameOk(f, _) => FrameOk(f, size)
      case FrameErr(e) => FrameErr(e)
  }

  /** An empty body is a heartbeat; otherwise it is a described value and the payload behind it. */
  function ParseBody(typ: byte, channel: uint16, body: bytes): FrameResult {
    if body == [] then FrameOk(Frame(typ, channel, 0, [], []), 0)
    else
      match Read(body)
      case Fail(e) => FrameErr(BadBody(e))
      case Ok(v, n) =>
        if !v.Described? then FrameErr(NotDescribed)
        else FrameOk(Frame(typ, channel, DescriptorCode(v.descriptor),
                           if v.value.List? then v.value.items else [], body[n..]), |body|)
  }

  // ---- What is read back ----

  /** f as its receiver sees it: one byte of code, trailing absent fields gone, map keys normalised. */
  function Received(f: Frame): Frame {
    Frame(f.typ, f.channel, ToByte(f.code), NormItems(Trim(f.fields)), f.payload)
  }

  /** No map inside the frame's fields has a key the runtime cannot hash. */
  predicate Hashes(f: Frame) {
    KeysHashable(List(f.fields))
  }

  lemma ReadPerformative(code: uint64, fields: seq<Value>, payload: bytes)
    requires Encodable(List(fields)) && KeysHashable(List(fields))
    requires |EncodeDescribedList(code, fields)| < MAX_LENGTH
    ensures Read(EncodeDescribedList(code, fields) + payload)
         == Ok(Described(Ulong(ToByte(code)), List(NormItems(Trim(fields)))), |EncodeDescribedList(code, fields)|)
  {
    hide Read;
    var items, c := Trim(fields), ToByte(code);
    var tail := EncodeList(items) + payload;
    ShortEncodingFits(List(items));
    RoundTripList(items, payload);
    ReadSmallUlong(c, tail);
    ReadConstructor(0x00, [0x53, c] + EncodeList(items), payload);
    AppendAssoc([0x53, c], EncodeList(items), payload);
  }

  lemma PerformativePanics(code: uint64, fields: seq<Value>, payload: bytes)
    requires Encodable(List(fields)) && !KeysHashable(List(fields))
    requires |EncodeDescribedList(code, fields)| < MAX_LENGTH
    ensures Read(EncodeDescribedList(code, fields) + payload) == Fail(UnhashableKey)
  {
    hide Read, ReadBody;
    var items, c := Trim(fields), ToByte(code);
    ShortEncodingFits(List(items));
    assert !KeysHashable(List(items));
    ListPanics(items, payload);
    ReadSmallUlong(c, EncodeList(items) + payload);
    ReadConstructor(0x00, [0x53, c] + EncodeList(items), payload);
    AppendAssoc([0x53, c], EncodeList(items), payload);
    DescribedPanics([0x53, c], EncodeList(items) + payload);
  }

  lemma ReadSmallUlong(c: byte, tail: bytes)
    ensures Read([0x53, c] + tail) == Ok(Ulong(c), 2)
  {
    assert [0x53] + [c] == [0x53, c];
    ReadConstructor(0x53, [c], tail);
    assert ([c] + tail)[..1] == [c];
    assert FromBe([c]) == c by { assert [c][..0] == []; }
  }

  lemma ReadHeader8(size: uint32, typ: byte, channel: uint16, tail: bytes)
    ensures var s := FrameHeader(size, typ, channel) + tail;
            && FromBe(s[..4]) == size && s[4] == 2 && s[5] == typ
            && FromBe(s[6..8]) == channel && s[8..] == tail
  {
    var s := FrameHeader(size, typ, channel) + tail;
    assert Pow256(2) == 0x1_0000 && Pow256(4) == MAX_LENGTH;
    hide FromBe, Be;
    assert s[..4] == Be(4, size) && s[6..8] == Be(2, channel);
    BeInverse(4, size);
    BeInverse(2, channel);
  }

  /**
   What the peer reads when the next frame on the wire is f, whatever follows it: the frame, a refusal
   when it is larger than the negotiated maximum, or a panic when a map in it has an unhashable key.
   */
  lemma FrameRoundTrip(f: Frame, rest: bytes)
    requires Encodable(List(f.fields)) && FrameSize(f) < MAX_LENGTH
    ensures ParseFrame(EncodeFrame(f) + rest) ==
            if FrameSize(f) > MAX_FRAME_SIZE then FrameErr(FrameTooLarge)
            else if Hashes(f) then FrameOk(Received(f), FrameSize(f))
            else FrameErr(BadBody(UnhashableKey))
  {
    hide EncodeDescribedList, FrameHeader, ParseFrame, ParseBody, Received, Hashes;
    var size, body := FrameSize(f), EncodeDescribedList(f.code, f.fields);
    var h := FrameHeader(size, f.typ, f.channel);
    AppendAssoc(h, body + f.payload, rest);
    ParseSized(size, f.typ, f.channel, body + f.payload, rest);
    if size <= MAX_FRAME_SIZE {
      BodyRoundTrip(f);
    }
  }

  /** Behind a header that gives its size a frame is its body, whatever follows. */
  lemma ParseSized(size: uint32, typ: byte, channel: uint16, body: bytes, rest: bytes)
    requires size == 8 + |body|
    ensures ParseFrame(FrameHeader(size, typ, channel) + (body + rest)) ==
            if size > MAX_FRAME_SIZE then FrameErr(FrameTooLarge) else WithSize(ParseBody(typ, channel, body), size)
  {
    hide FrameHeader, FromBe, ParseBody;
    var s := FrameHeader(size, typ, channel) + (body + rest);
    ReadHeader8(size, typ, channel, body + rest);
    assert s[8..size] == body;
  }

  function WithSize(r: FrameResult, size: nat): FrameResult {
    if r.FrameOk? then FrameOk(r.frame, size) else r
  }

  lemma BodyRoundTrip(f: Frame)
    requires Encodable(List(f.fields)) && FrameSize(f) < MAX_LENGTH
    ensures var body := EncodeDescribedList(f.code, f.fields) + f.payload;
            ParseBody(f.typ, f.channel, body) ==
            if Hashes(f) then FrameOk(Received(f), |body|) else FrameErr(BadBody(UnhashableKey))
  {
    hide Read, ParseBody, EncodeDescribedList, Trim, KeysHashable;
    var body := EncodeDescribedList(f.code, f.fields);
    EncodedNotEmpty(f.code, f.fields);
    if Hashes(f) {
      ReadPerformative(f.code, f.fields, f.payload);
      assert (body + f.payload)[|body|..] == f.payload;
      ParsePerformative(f.typ, f.channel, body + f.payload, ToByte(f.code), NormItems(Trim(f.fields)), |body|);
    } else {
      PerformativePanics(f.code, f.fields, f.payload);
      BadBodyFails(f.typ, f.channel, body + f.payload, UnhashableKey);
    }
  }

  lemma BadBodyFails(typ: byte, channel: uint16, body: bytes, e: DecodeError)
    requires body != [] && Read(body) == Fail(e)
    ensures ParseBody(typ, channel, body) == FrameErr(BadBody(e))
  {
    hide Read;
  }

  lemma ParsePerformative(typ: byte, channel: uint16, body: bytes, code: uint64, fields: seq<Value>, n: nat)
    requires body != [] && n <= |body| && Read(body) == Ok(Described(Ulong(code), List(fields)), n)
    ensures ParseBody(typ, channel, body) == FrameOk(Frame(typ, channel, code, fields, body[n..]), |body|)
  {
    hide Read;
  }

  lemma EncodedNotEmpty(code: uint64, fields: seq<Value>)
    requires Encodable(List(fields))
    ensures |EncodeDescribedList(code, fields)| > 3
  {
  }

  /**
   A frame is read back with its own code exactly when that fits a byte, the frame is not too large and
   the runtime can hash its map keys.
   */
  lemma FrameReadBack(f: Frame, rest: bytes)
    requires Encodable(List(f.fields)) && FrameSize(f) < MAX_LENGTH
    ensures (var r := ParseFrame(EncodeFrame(f) + rest);
             r.FrameOk? && r.frame.code == f.code && r.used == |EncodeFrame(f)|)
        <==> f.code <= 255 && FrameSize(f) <= MAX_FRAME_SIZE && Hashes(f)
  {
    hide ParseFrame, EncodeFrame, FrameSize, Trim, NormItems, Hashes;
    EncodeFrameSize(f);
    FrameRoundTrip(f, rest);
  }

  /**
   A frame of Go values is read back as it was written, up to the trailing absent fields and the type of
   symbol keys, exactly when its code fits a byte, it is not too large and no map inside it has a clash.
   */
  lemma FrameComesBackWhole(f: Frame, rest: bytes)
    requires Encodable(List(f.fields)) && IsGoValue(List(f.fields)) && FrameSize(f) < MAX_LENGTH
    ensures ParseFrame(EncodeFrame(f) + rest)
         == FrameOk(Frame(f.typ, f.channel, f.code, RenamedItems(Trim(f.fields)), f.payload), |EncodeFrame(f)|)
        <==> f.code <= 255 && FrameSize(f) <= MAX_FRAME_SIZE && NoClash(List(f.fields))
  {
    hide ParseFrame, EncodeFrame, FrameSize, Trim, Encodable, IsGoValue, NoClash, KeysHashable;
    EncodeFrameSize(f);
    FrameRoundTrip(f, rest);
    GoKeysHashable(List(f.fields));
    TrimmedWhole(f.fields);
  }

  lemma TrimmedWhole(fields: seq<Value>)
    requires IsGoValue(List(fields))
    ensures NormItems(Trim(fields)) == RenamedItems(Trim(fields)) <==> NoClash(List(fields))
  {
    hide Trim, Norm, Renamed;
    var items := Trim(fields);
    NormIsRenamed(List(items));
    ListForms(items);
    assert NoClash(List(fields)) <==> NoClash(List(items));
  }

  lemma ListForms(items: seq<Value>)
    ensures Norm(List(items)) == List(NormItems(items))
    ensures Renamed(List(items)) == List(RenamedItems(items))
  {
  }

  /** A transfer of nineteen bytes with a list as a map key: reading it panics. */
  lemma ListKeyPanics(rest: bytes)
    ensures var f := Frame(0, 0, 0x14, [Map([Entry(List([]), Null)])], []);
            FrameSize(f) == 19 && ParseFrame(EncodeFrame(f) + rest) == FrameErr(BadBody(UnhashableKey))
  {
    hide ParseFrame, EncodeFrame;
    var m := Map([Entry(List([]), Null)]);
    var f := Frame(0, 0, 0x14, [m], []);
    assert !Hashes(f) by {
      assert !Hashable(m.entries[0].key);
      assert !KeysHashable(f.fields[0]);
    }
    SmallMap();
    FrameRoundTrip(f, rest);
  }

  lemma SmallMap()
    ensures var m := Map([Entry(List([]), Null)]);
            && |Encode(m)| == 5 && Encodable(List([m])) && |EncodeDescribedList(0x14, [m])| == 11
  {
    var es := [Entry(List([]), Null)];
    assert es[1..] == [] && EncodeEntries([]) == [];
    assert |EncodeEntry(es[0])| == 2;
    assert |EncodeEntries(es)| == 2;
    assert [Map(es)][1..] == [] && EncodeItems([]) == [];
    assert |EncodeItems([Map(es)])| == 5;
  }

  /** Trimming loses nothing a reader can see: every field, present or absent, reads back. */
  lemma FieldsSurvive(f: Frame, i: int)
    ensures Received(f).Field(i) == Norm(f.Field(i))
  {
  }

  function EncodeStream(fs: seq<Frame>): bytes
    requires forall i | 0 <= i < |fs| :: Encodable(List(fs[i].fields))
  {
    if fs == [] then [] else EncodeFrame(fs[0]) + EncodeStream(fs[1..])
  }

  /** The frames read from a connection until it ends or is in error. */
  function ParseStream(s: bytes): seq<Frame>
    decreases |s|
  {
    match ParseFrame(s)
    case FrameOk(f, n) => [f] + ParseStream(s[n..])
    case FrameErr(_) => []
  }

  function ReceivedAll(fs: seq<Frame>): (r: seq<Frame>)
    ensures |r| == |fs| && forall i | 0 <= i < |fs| :: r[i] == Received(fs[i])
  {
    seq(|fs|, i requires 0 <= i < |fs| => Received(fs[i]))
  }

  /** A connection carries any sequence of admissible frames unchanged, in order and with none merged or split. */
  lemma {:induction false} StreamRoundTrip(fs: seq<Frame>)
    requires forall i | 0 <= i < |fs| ::
               Encodable(List(fs[i].fields)) && Hashes(fs[i]) && FrameSize(fs[i]) <= MAX_FRAME_SIZE
    ensures ParseStream(EncodeStream(fs)) == ReceivedAll(fs)
  {
    hide ParseFrame, EncodeFrame, Received, Hashes;
    if fs == [] {
      EmptyStream();
    } else {
      var head, tail := EncodeFrame(fs[0]), EncodeStream(fs[1..]);
      FrameRoundTrip(fs[0], tail);
      assert |head| == FrameSize(fs[0]) by { EncodeFrameSize(fs[0]); }
      assert (head + tail)[|head|..] == tail;
      StreamRoundTrip(fs[1..]);
    }
  }

  lemma EmptyStream()
    ensures ParseStream([]) == []
  {
  }

  lemma EncodeFrameSize(f: Frame)
    requires Encodable(List(f.fields))
    ensures |EncodeFrame(f)| == FrameSize(f)
  {
    hide EncodeDescribedList;
  }

  // ---- The code that writes and reads ----

  class Wire {
    /** The bytes written and not yet read. */
    var data: bytes

    constructor ()
      ensures data == []
    {
      data := [];
    }

    method WriteFrame(typ: byte, channel: uint16, code: uint64, fields: seq<Value>, payload: bytes)
      requires Encodable(List(fields))
      modifies this
      ensures data == old(data) + EncodeFrame(Frame(typ, channel, code, fields, payload))
    {
      hide Be, EncodeDescribedList;
      var body := DescribedList(code, fields);
      var size := 8 + |body| + |payload|;
      var header := Be(4, ToUint32(size)) + [2, typ] + Be(2, channel);
      data := data + header;
      data := data + body;
      if |payload| > 0 {
        data := data + payload;
      }
      AppendAssoc(old(data), header, body + payload);
      AppendAssoc(old(data) + header, body, payload);
    }

    method DescribedList(code: uint64, fields: seq<Value>) returns (s: bytes)
      requires Encodable(List(fields))
      ensures s == EncodeDescribedList(code, fields)
    {
      hide EncodeList;
      var trimmed := fields;
      while |trimmed| > 0 && trimmed[|trimmed| - 1] == Null
        invariant trimmed <= fields && Trim(trimmed) == Trim(fields)
      {
        trimmed := trimmed[..|trimmed| - 1];
      }
      var e := new AmqpCoder.Encoder();
      e.WriteByte(0x00);
      e.WriteByte(0x53);
      e.WriteByte(ToByte(code));
      e.WriteList(trimmed);
      s := e.buf;
    }

    /** Exactly n bytes, or nothing when the stream ends first. */
    method ReadFull(n: nat) returns (ok: bool, s: bytes)
      modifies this
      ensures ok <==> n <= |old(data)|
      ensures ok ==> s == old(data)[..n] && data == old(data)[n..]
    {
      if n > |data| {
        data := [];
        return false, [];
      }
      ok, s := true, data[..n];
      data := data[n..];
    }

    method ReadFrame() returns (r: FrameResult)
      modifies this
      ensures r == ParseFrame(old(data))
      ensures r.FrameOk? ==> data == old(data)[r.used..]
    {
      ghost var s := data;
      hide Read, FromBe;
      var ok, header := ReadFull(8);
      if !ok {
        return FrameErr(ShortRead);
      }
      assert Pow256(2) == 0x1_0000;
      var size := FromBe(header[0..4]);
      assert header[0..4] == s[..4] && header[6..8] == s[6..8];
      if size < 8 {
        return FrameErr(InvalidSize);
      }
      if size > MAX_FRAME_SIZE {
        return FrameErr(FrameTooLarge);
      }
      var doff := (header[4] as int) * 4;
      if doff < 8 {
        return FrameErr(InvalidOffset);
      }
      var typ, channel := header[5], FromBe(header[6..8]);
      var got, body := ReadFull(size - 8);
      if !got {
        return FrameErr(ShortRead);
      }
      assert body == s[8..size] && data == s[size..];
      if doff > 8 {
        if doff - 8 > |body| {
          return FrameErr(OffsetPastBody);
        }
        body := body[doff - 8..];
      }
      assert body == s[doff..size];
      r := DecodeBody(typ, channel, body);
      if r.FrameOk? {
        r := FrameOk(r.frame, size);
      }
    }

    method DecodeBody(typ: byte, channel: uint16, body: bytes) returns (r: FrameResult)
      ensures r == ParseBody(typ, channel, body)
    {
      hide Read;
      if |body| == 0 {
        return FrameOk(Frame(typ, channel, 0, [], []), 0);
      }
      var dec := new AmqpCoder.Decoder(body);
      assert body[0..] == body;
      var v := dec.ReadValue();
      if v.Failure? {
        return FrameErr(BadBody(v.error));
      }
      if !v.value.Described? {
        return FrameErr(NotDescribed);
      }
      var f := Frame(typ, channel, DescriptorCode(v.value.descriptor), [], []);
      if v.value.value.List? {
        f := f.(fields := v.value.value.items);
      }
      r := FrameOk(f.(payload := body[dec.pos..]), |body|);
    }
  }
}
