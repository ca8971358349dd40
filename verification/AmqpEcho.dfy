/** Encoding what was decoded, as the server does with the source and target of an attach and with a message-id. */
module AmqpEcho {
  import opened Bytes
  import opened AmqpTypes
  import opened AmqpCodec
  import opened AmqpCodecProofs
  import opened AmqpMaps
  import opened AmqpFrame

  /** Every map inside v is as the decoder leaves it: a Go map without symbol keys. */
  predicate Normal(v: Value) {
    match v
    case List(items) => forall i | 0 <= i < |items| :: Normal(items[i])
    case Map(es) => NormalKeys(es) && forall i | 0 <= i < |es| :: Normal(es[i].val)
    case Described(d, x) => Normal(d) && Normal(x)
    case _ => true
  }

  predicate NormalKeys(es: seq<Entry>) {
    IsGoMap(es) && forall i | 0 <= i < |es| :: !es[i].key.Sym?
  }

  /** Normal values are the ones that another trip over the wire does not change. */
  lemma {:induction false} NormalGo(v: Value)
    requires Normal(v)
    ensures IsGoValue(v) && NoClash(v) && Renamed(v) == v
    decreases v
  {
    match v
    case List(items) =>
      forall i | 0 <= i < |items| ensures IsGoValue(items[i]) && NoClash(items[i]) && Renamed(items[i]) == items[i] {
        NormalGo(items[i]);
      }
      assert RenamedItems(items) == items;
    case Map(es) =>
      forall i | 0 <= i < |es| ensures IsGoValue(es[i].val) && NoClash(es[i].val) && RenamedEntry(es[i]) == es[i] {
        var Entry(_, x) := es[i];
        assert x < es[i];
        NormalGo(x);
      }
      assert RenamedEntries(es) == es;
    case Described(d, x) => NormalGo(d); NormalGo(x);
    case _ =>
  }

  // ---- What the decoder returns ----

  /** The decoder returns values that another trip does not change. */
  lemma {:induction false} ReadNormal(s: bytes)
    requires Read(s).Ok?
    ensures Normal(Read(s).value)
    decreases |s|, 0
  {
    hide ReadBody, Normal;
    ReadBodyNormal(s[0], s[1..]);
  }

  lemma {:induction false} ReadBodyNormal(code: byte, s: bytes)
    requires ReadBody(code, s).Ok?
    ensures Normal(ReadBody(code, s).value)
    decreases |s|, 4
  {
    hide Read, ReadList, ReadMap, ReadDescribed, ReadScalar, Normal;
    match code
    case 0xc0 => ReadListNormal(1, s);
    case 0xd0 => ReadListNormal(4, s);
    case 0xc1 => ReadMapNormal(1, s);
    case 0xd1 => ReadMapNormal(4, s);
    case 0x00 => ReadDescribedNormal(s);
    case _ => ReadScalarNormal(code, s);
  }

  lemma ReadScalarNormal(code: byte, s: bytes)
    requires ReadScalar(code, s).Ok?
    ensures Normal(ReadScalar(code, s).value)
  {
    hide FromBe;
  }

  lemma {:induction false} ReadDescribedNormal(s: bytes)
    requires ReadDescribed(s).Ok?
    ensures Normal(ReadDescribed(s).value)
    decreases |s|, 1
  {
    hide Read;
    ReadNormal(s);
    ReadNormal(s[Read(s).used..]);
  }

  lemma {:induction false} ReadListNormal(w: width, s: bytes)
    requires ReadList(w, s).Ok?
    ensures Normal(ReadList(w, s).value)
    decreases |s|, 3
  {
    hide ReadItems, ReadCount;
    ReadItemsNormal(s[2 * w..], ReadCount(w, s).value);
  }

  lemma {:induction false} ReadItemsNormal(s: bytes, count: nat)
    requires ReadItems(s, count).Ok?
    ensures forall i | 0 <= i < count :: Normal(ReadItems(s, count).value[i])
    decreases |s|, 2, count
  {
    hide Read, Normal;
    if count > 0 {
      ReadNormal(s);
      ReadItemsNormal(s[Read(s).used..], count - 1);
    }
  }

  lemma {:induction false} ReadMapNormal(w: width, s: bytes)
    requires ReadMap(w, s).Ok?
    ensures Normal(ReadMap(w, s).value)
    decreases |s|, 3
  {
    assert Normal(Map([]));
    hide ReadEntries, ReadCount, Normal;
    ReadEntriesNormal(s[2 * w..], (ReadCount(w, s).value + 1) / 2, []);
  }

  lemma {:induction false} ReadEntriesNormal(s: bytes, pairs: nat, m: seq<Entry>)
    requires ReadEntries(s, pairs, m).Ok? && Normal(Map(m))
    ensures Normal(Map(ReadEntries(s, pairs, m).value))
    decreases |s|, 2, pairs
  {
    hide ReadEntry, Put, Normal, Hashable;
    if pairs > 0 {
      var e := ReadEntry(s).value;
      ReadEntryNormal(s);
      PutNormal(m, e);
      ReadEntriesNormal(s[ReadEntry(s).used..], pairs - 1, Put(m, e));
    }
  }

  lemma {:induction false} ReadEntryNormal(s: bytes)
    requires ReadEntry(s).Ok?
    ensures var e := ReadEntry(s).value; Hashable(e.key) && !e.key.Sym? && Normal(e.val)
    decreases |s|, 1
  {
    hide Read, Normal;
    ReadNormal(s[Read(s).used..]);
  }

  lemma PutNormal(m: seq<Entry>, e: Entry)
    requires Normal(Map(m)) && Hashable(e.key) && !e.key.Sym? && Normal(e.val)
    ensures Normal(Map(Put(m, e)))
  {
    hide Hashable, Put;
    PutAt(m, e);
  }

  // ---- The echo ----

  lemma {:induction false} WeightOfItem(items: seq<Value>, i: nat)
    requires i < |items|
    ensures Weight(items[i]) <= WeightOf(items) && |items| <= WeightOf(items)
    decreases |items|
  {
    hide Weight;
    WeightCounts(items[0]);
    if |items| > 1 {
      WeightOfItem(items[1..], if i > 0 then i - 1 else 0);
    }
  }

  lemma {:induction false} WeightOfVal(es: seq<Entry>, i: nat)
    requires i < |es|
    ensures Weight(es[i].key) + Weight(es[i].val) <= WeightOfEntries(es) && 2 * |es| <= WeightOfEntries(es)
    decreases |es|
  {
    hide Weight;
    WeightCounts(es[0].key);
    WeightCounts(es[0].val);
    if |es| > 1 {
      WeightOfVal(es[1..], if i > 0 then i - 1 else 0);
    }
  }

  lemma WeightCounts(v: Value)
    ensures Weight(v) >= 1
  {
  }

  lemma {:induction false} LightFits(v: Value)
    requires Weight(v) < MAX_LENGTH
    ensures LengthsFit(v)
    decreases v
  {
    match v
    case List(items) =>
      forall i | 0 <= i < |items| ensures LengthsFit(items[i]) && |items| < MAX_LENGTH {
        WeightOfItem(items, i);
        LightFits(items[i]);
      }
    case Map(es) =>
      forall i | 0 <= i < |es|
        ensures LengthsFit(es[i].key) && LengthsFit(es[i].val) && 2 * |es| < MAX_LENGTH
      {
        WeightOfVal(es, i);
        var Entry(k, x) := es[i];
        assert k < es[i] && x < es[i];
        LightFits(k);
        LightFits(x);
      }
      if es != [] { WeightOfVal(es, 0); }
    case Described(d, x) => LightFits(d); LightFits(x);
    case _ =>
  }

  /**
   A decoded value is one that decoding does not change: unless the encoder panics on it, writing it
   and reading it again gives it back as it was. (A frame has fewer than 2^32 bytes.)
   */
  lemma EchoReadsBack(s: bytes, rest: bytes)
    requires Read(s).Ok? && |s| < MAX_LENGTH
    ensures var v := Read(s).value;
            Norm(v) == v && (Encodable(v) ==> Sendable(v) && Read(Encode(v) + rest) == Ok(v, |Encode(v)|))
  {
    hide Read, Encode, Normal, Norm, Weight, Encodable, LengthsFit, KeysHashable;
    var v := Read(s).value;
    ReadNormal(s);
    NormalGo(v);
    NormIsRenamed(v);
    GoKeysHashable(v);
    ReadBounded(s);
    LightFits(v);
    if Encodable(v) {
      RoundTrip(v, rest);
    }
  }

  /** The runtime may range over its maps in another order when it writes it: the same value is read back. */
  lemma EchoInAnyOrder(s: bytes, w: Value, rest: bytes)
    requires Read(s).Ok? && |s| < MAX_LENGTH && IsGoValue(w) && Same(Read(s).value, w)
    ensures Encodable(w) <==> Encodable(Read(s).value)
    ensures Encodable(w) ==>
              var r := Read(Encode(w) + rest);
              r.Ok? && r.used == |Encode(w)| && Same(Read(s).value, r.value)
  {
    hide Read, Encode, Normal, Same, Norm, Weight, Encodable, LengthsFit, KeysHashable, IsGoValue, NoClash, Renamed;
    var v := Read(s).value;
    ReadNormal(s);
    NormalGo(v);
    ReadBounded(s);
    LightFits(v);
    SameSymmetric(v, w);
    SameFits(v, w);
    SameFits(w, v);
    NoClashSame(v, w);
    RenamedSame(v, w);
    if Encodable(w) {
      ComesBackWhole(w, rest);
    }
  }

  /** The decoder returns a byte or a short, which the encoder panics on, alone and inside any list. */
  lemma SmallIntegersCannotReturn(b: byte, c: byte, rest: bytes)
    ensures Read([0x51] + [b] + rest) == Ok(Byte(Signed8(b)), 2) && !Encodable(Byte(Signed8(b)))
    ensures var n := Signed16(FromBe([b, c]));
            Read([0x61] + [b, c] + rest) == Ok(Short(n), 3) && !Encodable(Short(n))
    ensures forall items: seq<Value> | Byte(Signed8(b)) in items :: !Encodable(List(items))
  {
    hide FromBe;
    ReadConstructor(0x51, [b], rest);
    ReadConstructor(0x61, [b, c], rest);
    assert ([b] + rest)[..1] == [b] && ([b, c] + rest)[..2] == [b, c];
    assert FromBe([b]) == b by { OneByte(b); }
  }

  lemma OneByte(b: byte)
    ensures FromBe([b]) == b
  {
    assert [b][..0] == [];
  }

  // ---- The attach that is echoed ----

  /** The conversions that find a performative's fields, which never fail. */
  function AsUint32(v: Value): uint32 {
    match v
    case Uint(n) => n
    case Ulong(n) => ToUint32(n)
    case Ushort(n) => n
    case Ubyte(n) => n
    case Int(n) => ToUint32(n)
    case Long(n) => ToUint32(n)
    case _ => 0
  }

  function AsBool(v: Value): bool {
    v.Bool? && v.b
  }

  function AsText(v: Value): bytes {
    if v.Str? then v.text else []
  }

  /** The attach the server answers with: the other role, and the client's settle modes, source and target. */
  function AttachReply(f: Frame): Frame {
    Frame(0, f.channel, 0x12,
          [Str(AsText(f.Field(0))), Uint(AsUint32(f.Field(1))), Bool(!AsBool(f.Field(2))),
           f.Field(3), f.Field(4), f.Field(5), f.Field(6), Null, Bool(false), Uint(0)],
          [])
  }

  lemma ParsedNormal(s: bytes)
    requires ParseFrame(s).FrameOk?
    ensures Normal(List(ParseFrame(s).frame.fields))
  {
    hide Read, FromBe;
    var body := s[(s[4] as int) * 4..FromBe(s[..4])];
    if body != [] {
      ReadNormal(body);
    }
  }

  /**
   The reply to an attach, its maps in any order, makes the encoder panic exactly when it panics on one
   of the four fields echoed; otherwise, if the reply is not too large, the client reads the values the
   server had read, up to that order.
   */
  lemma AttachEcho(s: bytes, g: Frame, rest: bytes)
    requires ParseFrame(s).FrameOk?
    requires var reply := AttachReply(ParseFrame(s).frame);
             g == reply.(fields := g.fields) && IsGoValue(List(g.fields)) && Same(List(reply.fields), List(g.fields))
    ensures Encodable(List(g.fields)) <==> forall i | 3 <= i < 7 :: Encodable(ParseFrame(s).frame.Field(i))
    ensures Encodable(List(g.fields)) && FrameSize(g) <= MAX_FRAME_SIZE ==>
              var (reply, r) := (AttachReply(ParseFrame(s).frame), ParseFrame(EncodeFrame(g) + rest));
              && r.FrameOk? && r.used == FrameSize(g) && r.frame == reply.(fields := r.frame.fields)
              && Same(List(reply.fields), List(r.frame.fields))
              && (g == reply ==> r.frame == reply)
  {
    hide Normal, ParseFrame, EncodeFrame, FrameSize, Same, Encodable, IsGoValue, NoClash, Renamed;
    var f := ParseFrame(s).frame;
    var reply := AttachReply(f);
    ReplyEncodable(f);
    ParsedNormal(s);
    ReplyNormal(f);
    NormalGo(List(reply.fields));
    SameSymmetric(List(reply.fields), List(g.fields));
    SameFits(List(reply.fields), List(g.fields));
    SameFits(List(g.fields), List(reply.fields));
    if Encodable(List(g.fields)) && FrameSize(g) <= MAX_FRAME_SIZE {
      NoClashSame(List(reply.fields), List(g.fields));
      RenamedSame(List(reply.fields), List(g.fields));
      FrameComesBackWhole(g, rest);
      EncodeFrameSize(g);
      LastPresent(reply.fields, g.fields);
      ListForms(g.fields);
    }
  }

  /** Trimming takes nothing off a reply. */
  lemma LastPresent(fields: seq<Value>, others: seq<Value>)
    requires Same(List(fields), List(others)) && fields != [] && fields[|fields| - 1] == Uint(0)
    ensures Trim(others) == others
  {
    assert Same(fields[|fields| - 1], others[|fields| - 1]);
  }

  lemma ReplyEncodable(f: Frame)
    ensures Encodable(List(AttachReply(f).fields)) <==> forall i | 3 <= i < 7 :: Encodable(f.Field(i))
  {
    var gs := AttachReply(f).fields;
    EncodableItems(gs);
    hide Encodable;
    assert Encodable(gs[0]) && Encodable(gs[1]) && Encodable(gs[2]) && Encodable(gs[7]) && Encodable(gs[8])
        && Encodable(gs[9]) by { EncodableScalars(AsText(f.Field(0)), AsUint32(f.Field(1)), !AsBool(f.Field(2))); }
    assert gs[3] == f.Field(3) && gs[4] == f.Field(4) && gs[5] == f.Field(5) && gs[6] == f.Field(6);
  }

  lemma EncodableItems(items: seq<Value>)
    ensures Encodable(List(items)) <==> forall i | 0 <= i < |items| :: Encodable(items[i])
  {
  }

  lemma EncodableScalars(s: bytes, n: uint32, b: bool)
    ensures Encodable(Str(s)) && Encodable(Uint(n)) && Encodable(Uint(0)) && Encodable(Null)
    ensures Encodable(Bool(b)) && Encodable(Bool(false))
  {
  }

  lemma ReplyNormal(f: Frame)
    requires Normal(List(f.fields))
    ensures Normal(List(AttachReply(f).fields))
  {
  }

  /** An attach of nineteen bytes that the decoder accepts and whose reply cannot be encoded. */
  lemma UnencodableAttach(b: byte)
    ensures var s := FrameHeader(19, 0, 0) + [0x00, 0x53, 0x12, 0xc0, 6, 4, 0x40, 0x40, 0x40, 0x51, b];
            && ParseFrame(s) == FrameOk(Frame(0, 0, 0x12, [Null, Null, Null, Byte(Signed8(b))], []), 19)
            && !Encodable(List(AttachReply(ParseFrame(s).frame).fields))
  {
    hide ParseFrame, ParseBody, Read, FrameHeader, Encodable;
    var body := [0x00, 0x53, 0x12, 0xc0, 6, 4, 0x40, 0x40, 0x40, 0x51, b];
    var fields := [Null, Null, Null, Byte(Signed8(b))];
    SmallAttach(b);
    ParsePerformative(0, 0, body, 0x12, fields, 11);
    assert body[11..] == [];
    ParseSized(19, 0, 0, body, []);
    assert body + [] == body;
    ByteField(fields, b);
  }

  lemma ByteField(fields: seq<Value>, b: byte)
    requires fields == [Null, Null, Null, Byte(Signed8(b))]
    ensures WithSize(FrameOk(Frame(0, 0, 0x12, fields, []), 11), 19) == FrameOk(Frame(0, 0, 0x12, fields, []), 19)
    ensures !Encodable(List(AttachReply(Frame(0, 0, 0x12, fields, [])).fields))
  {
    ReplyEncodable(Frame(0, 0, 0x12, fields, []));
    assert fields[3] == Frame(0, 0, 0x12, fields, []).Field(3);
  }

  lemma SmallAttach(b: byte)
    ensures Read([0x00, 0x53, 0x12, 0xc0, 6, 4, 0x40, 0x40, 0x40, 0x51, b]) ==
            Ok(Described(Ulong(0x12), List([Null, Null, Null, Byte(Signed8(b))])), 11)
  {
    hide Read, ReadItems, ReadCount;
    var items := [0x40, 0x40, 0x40, 0x51, b];
    SmallItems(b);
    var list := [6, 4] + items;
    assert ReadCount(1, list) == Ok(4, 2) by { ReadCountInverse1(6, 4, items); }
    assert list[2..] == items;
    ReadListBody(1, list, 4);
    ReadConstructor(0xc0, list, []);
    assert [0xc0] + list + [] == [0xc0] + list && list + [] == list;
    ReadSmallUlong(0x12, [0xc0] + list);
    var pair := [0x53, 0x12] + ([0xc0] + list);
    assert pair[2..] == [0xc0] + list;
    ReadConstructor(0x00, pair, []);
    assert [0x00] + pair + [] == [0x00, 0x53, 0x12, 0xc0, 6, 4, 0x40, 0x40, 0x40, 0x51, b] && pair + [] == pair;
  }

  lemma ReadCountInverse1(size: byte, count: byte, tail: bytes)
    requires count <= |tail|
    ensures ReadCount(1, [size, count] + tail) == Ok(count, 2)
  {
    hide ReadCount;
    BeByte(size);
    BeByte(count);
    ReadCountInverse(1, size, count, tail);
    assert Be(1, size) + Be(1, count) == [size, count];
  }

  lemma SmallItems(b: byte)
    ensures ReadItems([0x40, 0x40, 0x40, 0x51, b], 4) == Ok([Null, Null, Null, Byte(Signed8(b))], 5)
  {
    hide Read, ReadItems;
    var x := Byte(Signed8(b));
    SmallIntegersCannotReturn(b, 0, []);
    NoItems();
    forall t: bytes ensures Read([0x40] + t) == Ok(Null, 1) { ReadNull(t); }
    assert [0x51] + [b] + [] == [0x51, b] + [] == [0x51, b] && [x] + [] == [x];
    ReadItemsCons([0x51, b], [], x, [], 0);
    assert [0x40] + [0x51, b] == [0x40, 0x51, b] && [Null] + [x] == [Null, x];
    ReadItemsCons([0x40], [0x51, b], Null, [x], 2);
    assert [0x40] + [0x40, 0x51, b] == [0x40, 0x40, 0x51, b] && [Null] + [Null, x] == [Null, Null, x];
    ReadItemsCons([0x40], [0x40, 0x51, b], Null, [Null, x], 3);
    assert [0x40] + [0x40, 0x40, 0x51, b] == [0x40, 0x40, 0x40, 0x51, b];
    assert [Null] + [Null, Null, x] == [Null, Null, Null, x];
    ReadItemsCons([0x40], [0x40, 0x40, 0x51, b], Null, [Null, Null, x], 4);
  }

  lemma NoItems()
    ensures ReadItems([], 0) == Ok([], 0)
  {
  }

  lemma ReadNull(s: bytes)
    ensures Read([0x40] + s) == Ok(Null, 1)
  {
    ReadConstructor(0x40, [], s);
    assert [0x40] + [] + s == [0x40] + s && [] + s == s;
  }
}
