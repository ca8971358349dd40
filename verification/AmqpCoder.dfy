/** The encoder and decoder objects, each method proved to do what AmqpCodec specifies. */
module AmqpCoder {
  import opened Bytes
  import opened AmqpTypes
  import opened AmqpCodec
  import opened AmqpReserve

  lemma EntriesEnds(es: seq<Entry>)
    requires forall i | 0 <= i < |es| :: Encodable(es[i].key) && Encodable(es[i].val)
    ensures es[0..] == es && [] + EncodeEntries(es) == EncodeEntries(es)
    ensures forall b: bytes :: b + EncodeEntries(es[|es|..]) == b
  {
  }

  lemma EntriesFrom(b: bytes, es: seq<Entry>, i: nat)
    requires i < |es| && forall j | 0 <= j < |es| :: Encodable(es[j].key) && Encodable(es[j].val)
    ensures b + EncodeEntries(es[i..]) == b + Encode(es[i].key) + Encode(es[i].val) + EncodeEntries(es[i + 1..])
  {
    hide Encode;
    var (k, v, rest) := (Encode(es[i].key), Encode(es[i].val), EncodeEntries(es[i + 1..]));
    assert es[i..][0] == es[i] && es[i..][1..] == es[i + 1..];
    AppendAssoc(b, k, v);
    AppendAssoc(b, k + v, rest);
  }

  class Encoder {
    var buf: bytes

    constructor ()
      ensures buf == []
    {
      buf := [];
    }

    method WriteByte(b: byte)
      modifies this
      ensures buf == old(buf) + [b]
    {
      buf := buf + [b];
    }

    method Write(s: bytes)
      modifies this
      ensures buf == old(buf) + s
    {
      buf := buf + s;
    }

    method WriteSized(code8: byte, code32: byte, raw: bytes)
      modifies this
      ensures buf == old(buf) + ([if |raw| <= 255 then code8 else code32] + Sized(raw))
    {
      hide Be;
      ghost var was := buf;
      ghost var size := if |raw| <= 255 then [|raw|] else Be(4, ToUint32(|raw|));
      ghost var code := [if |raw| <= 255 then code8 else code32];
      if |raw| <= 255 {
        WriteByte(code8);
        WriteByte(|raw|);
      } else {
        WriteByte(code32);
        Write(Be(4, ToUint32(|raw|)));
      }
      Write(raw);
      AppendAssoc(was, code, size);
      AppendAssoc(was, code + size, raw);
      AppendAssoc(code, size, raw);
    }

    /** Appends the encoding of v and nothing else. */
    method WriteValue(v: Value)
      requires Encodable(v)
      modifies this
      ensures buf == old(buf) + Encode(v)
      decreases v, 1
    {
      hide Be, EncodeList, EncodeEntries, ScalarCode, ScalarBody;
      if v.Described? {
        WriteByte(0x00);
        WriteValue(v.descriptor);
        WriteValue(v.value);
      } else if v.List? {
        WriteList(v.items);
      } else if v.Map? {
        WriteMap(v.entries);
      } else {
        WriteScalar(v);
      }
    }

    /** The cases of WriteValue that hold no other value. */
    method WriteScalar(v: Value)
      requires Encodable(v) && Scalar(v)
      modifies this
      ensures buf == old(buf) + ([ScalarCode(v)] + ScalarBody(v))
    {
      hide Be, Sized;
      match v
      case Null => WriteByte(0x40);
      case Bool(b) => if b { WriteByte(0x41); } else { WriteByte(0x42); }
      case Ubyte(n) => WriteByte(0x50); WriteByte(n);
      case Ushort(n) => WriteByte(0x60); Write(Be(2, n));
      case Uint(n) => WriteByte(0x70); Write(Be(4, n));
      case Ulong(n) => WriteByte(0x80); Write(Be(8, n));
      case Int(n) => WriteByte(0x71); Write(Be(4, ToUint32(n)));
      case Long(n) => WriteByte(0x81); Write(Be(8, ToUint64(n)));
      case Str(s) => WriteSized(0xa1, 0xb1, s);
      case Sym(s) => WriteSized(0xa3, 0xb3, s);
      case Bin(s) => WriteSized(0xa0, 0xb0, s);
      case Timestamp(ms) => WriteByte(0x83); Write(Be(8, ToUint64(ms)));
      case Uuid(id) => WriteByte(0x98); Write(id);
    }

    method WriteHeader(code8: byte, code32: byte, count: nat, bodyLen: nat)
      modifies this
      ensures buf == old(buf) + CollectionHeader(code8, code32, count, bodyLen)
    {
      hide Be;
      if count <= 255 && bodyLen + 1 <= 255 {
        WriteByte(code8);
        WriteByte(bodyLen + 1);
        WriteByte(count);
      } else {
        WriteByte(code32);
        Write(Be(4, ToUint32(bodyLen + 4)));
        Write(Be(4, ToUint32(count)));
      }
    }

    method WriteList(items: seq<Value>)
      requires forall i | 0 <= i < |items| :: Encodable(items[i])
      modifies this
      ensures buf == old(buf) + EncodeList(items)
      decreases items, 0
    {
      hide Encode, EncodeItems, CollectionHeader;
      if |items| == 0 {
        WriteByte(0x45);
        return;
      }
      EncodeNoItems(items[|items|..]);
      var inner := new Encoder();
      for i := 0 to |items|
        invariant fresh(inner) && buf == old(buf)
        invariant inner.buf + EncodeItems(items[i..]) == EncodeItems(items)
      {
        EncodeItemsAt(items, i);
        AppendAssoc(inner.buf, Encode(items[i]), EncodeItems(items[i + 1..]));
        inner.WriteValue(items[i]);
      }
      WriteHeader(0xc0, 0xd0, |items|, |inner.buf|);
      Write(inner.buf);
    }

    /** The entries in the order the runtime ranges over them. */
    method WriteMap(es: seq<Entry>)
      requires forall i | 0 <= i < |es| :: Encodable(es[i].key) && Encodable(es[i].val)
      modifies this
      ensures buf == old(buf) + (CollectionHeader(0xc1, 0xd1, 2 * |es|, |EncodeEntries(es)|) + EncodeEntries(es))
      decreases es, 0
    {
      hide Encode, CollectionHeader, EncodeEntries;
      var inner := new Encoder();
      var count := 0;
      EntriesEnds(es);
      for i := 0 to |es|
        invariant fresh(inner) && buf == old(buf) && count == 2 * i
        invariant inner.buf + EncodeEntries(es[i..]) == EncodeEntries(es)
      {
        ghost var was := inner.buf;
        var Entry(k, v) := es[i];
        assert k < es[i] && v < es[i];
        EntriesFrom(was, es, i);
        inner.WriteValue(k);
        inner.WriteValue(v);
        count := count + 2;
      }
      WriteHeader(0xc1, 0xd1, count, |inner.buf|);
      Write(inner.buf);
    }
  }

  datatype Result<+T> = Success(value: T) | Failure(error: DecodeError) {
    predicate IsFailure() { Failure? }
    function PropagateFailure<U>(): Result<U>
      requires Failure?
    {
      Failure(error)
    }
    function Extract(): T
      requires Success?
    {
      value
    }
  }

  class Decoder {
    const buf: bytes
    var pos: nat
    ghost var reserved: nat  // slots set aside for lists and maps so far

    constructor (buf: bytes)
      ensures this.buf == buf && pos == 0 && reserved == 0 && Valid()
    {
      this.buf := buf;
      pos := 0;
      reserved := 0;
    }

    ghost predicate Valid()
      reads this
    {
      pos <= |buf|
    }

    /** From position `start`, the outcome r and the present position are what the specification says. */
    ghost predicate Did<T(!new)>(start: nat, r: Result<T>, spec: Parsed<T>)
      reads this
    {
      && Valid() && start <= pos
      && match spec
         case Ok(v, n) => r == Success(v) && pos == start + n
         case Fail(e) => r == Failure(e)
    }

    method ReadByte() returns (r: Result<byte>)
      requires Valid()
      modifies this`pos
      ensures Valid() && old(pos) <= pos
      ensures if old(pos) < |buf| then r == Success(buf[old(pos)]) && pos == old(pos) + 1
              else r == Failure(EndOfBuffer) && pos == old(pos)
    {
      if pos >= |buf| {
        return Failure(EndOfBuffer);
      }
      r := Success(buf[pos]);
      pos := pos + 1;
    }

    method ReadN(n: nat) returns (r: Result<bytes>)
      requires Valid()
      modifies this`pos
      ensures Valid() && old(pos) <= pos
      ensures if old(pos) + n <= |buf| then r == Success(buf[old(pos)..][..n]) && pos == old(pos) + n
              else r == Failure(EndOfBuffer) && pos == old(pos)
    {
      if pos + n > |buf| {
        return Failure(EndOfBuffer);
      }
      assert buf[pos..pos + n] == buf[pos..][..n];
      r := Success(buf[pos..pos + n]);
      pos := pos + n;
    }

    method ReadValue() returns (r: Result<Value>)
      requires Valid()
      modifies this
      ensures Did(old(pos), r, Read(buf[old(pos)..]))
      ensures reserved == old(reserved) + Reserved(buf[old(pos)..])
      decreases |buf| - pos, 0
    {
      hide AmqpCodec.ReadBody;
      ghost var s := buf[pos..];
      var code :- ReadByte();
      assert s[1..] == buf[pos..];
      r := ReadBody(code);
    }

    method ReadBody(code: byte) returns (r: Result<Value>)
      requires Valid()
      modifies this
      ensures Did(old(pos), r, AmqpCodec.ReadBody(code, buf[old(pos)..]))
      ensures reserved == old(reserved) + ReservedBody(code, buf[old(pos)..])
      decreases |buf| - pos, 4
    {
      hide AmqpCodec.Read, AmqpCodec.ReadList, AmqpCodec.ReadMap, ReadScalar;
      match code
      case 0xc0 => r := ReadList(1);
      case 0xd0 => r := ReadList(4);
      case 0xc1 => r := ReadMap(1);
      case 0xd1 => r := ReadMap(4);
      case 0x00 =>
        ghost var s := buf[pos..];
        var desc :- ReadValue();
        assert s[AmqpCodec.Read(s).used..] == buf[pos..];
        var val :- ReadValue();
        r := Success(Described(desc, val));
      case _ => r := ReadScalarBody(code);
    }

    /** The cases of ReadBody that hold no other value. */
    method ReadScalarBody(code: byte) returns (r: Result<Value>)
      requires Valid()
      modifies this`pos
      ensures Did(old(pos), r, ReadScalar(code, buf[old(pos)..]))
    {
      hide FromBe, ReadRaw;
      assert Pow256(2) == 0x1_0000 && Pow256(4) == 0x1_0000_0000 && Pow256(8) == 0x1_0000_0000_0000_0000;
      match code
      case 0x40 => r := Success(Null);
      case 0x41 => r := Success(Bool(true));
      case 0x42 => r := Success(Bool(false));
      case 0x43 => r := Success(Uint(0));
      case 0x44 => r := Success(Ulong(0));
      case 0x45 => r := Success(List([]));
      case 0x50 => r := ReadByteAs(code);
      case 0x51 => r := ReadByteAs(code);
      case 0x52 => r := ReadByteAs(code);
      case 0x53 => r := ReadByteAs(code);
      case 0x54 => r := ReadByteAs(code);
      case 0x55 => r := ReadByteAs(code);
      case 0x56 => r := ReadByteAs(code);
      case 0x60 => var raw :- ReadN(2); r := Success(Ushort(FromBe(raw)));
      case 0x61 => var raw :- ReadN(2); r := Success(Short(Signed16(FromBe(raw))));
      case 0x70 => var raw :- ReadN(4); r := Success(Uint(FromBe(raw)));
      case 0x71 => var raw :- ReadN(4); r := Success(Int(Signed32(FromBe(raw))));
      case 0x72 => var raw :- ReadN(4); r := Success(Uint(FromBe(raw)));
      case 0x80 => var raw :- ReadN(8); r := Success(Ulong(FromBe(raw)));
      case 0x81 => var raw :- ReadN(8); r := Success(Long(Signed64(FromBe(raw))));
      case 0x82 => var raw :- ReadN(8); r := Success(Ulong(FromBe(raw)));
      case 0x83 => var raw :- ReadN(8); r := Success(Timestamp(Signed64(FromBe(raw))));
      case 0x98 => var raw :- ReadN(16); r := Success(Uuid(raw));
      case 0xa0 => var raw :- ReadBinary(1); r := Success(Bin(raw));
      case 0xb0 => var raw :- ReadBinary(4); r := Success(Bin(raw));
      case 0xa1 => var raw :- ReadBinary(1); r := Success(Str(raw));
      case 0xb1 => var raw :- ReadBinary(4); r := Success(Str(raw));
      case 0xa3 => var raw :- ReadBinary(1); r := Success(Sym(raw));
      case 0xb3 => var raw :- ReadBinary(4); r := Success(Sym(raw));
      case _ => r := Failure(UnsupportedCode(code));
    }

    method ReadByteAs(code: byte) returns (r: Result<Value>)
      requires Valid() && LayoutOf(code) == Fixed(1)
      modifies this`pos
      ensures Did(old(pos), r, ReadScalar(code, buf[old(pos)..]))
    {
      ghost var s := buf[pos..];
      var b :- ReadByte();
      assert s[..1] == [b];
      assert FromBe([b]) == b by { assert [b][..0] == []; }
      match code
      case 0x50 => r := Success(Ubyte(b));
      case 0x51 => r := Success(Byte(Signed8(b)));
      case 0x52 => r := Success(Uint(b));
      case 0x53 => r := Success(Ulong(b));
      case 0x54 => r := Success(Int(Signed8(b)));
      case 0x55 => r := Success(Long(Signed8(b)));
      case 0x56 => r := Success(Bool(b != 0));
    }

    method ReadSize(w: width) returns (r: Result<nat>)
      requires Valid()
      modifies this`pos
      ensures var s := buf[old(pos)..];
              Did(old(pos), r, if |s| < w then Fail(EndOfBuffer) else Ok(SizeAt(w, s), w))
    {
      ghost var s := buf[pos..];
      if w == 1 {
        var b :- ReadByte();
        assert s[..1] == [b];
        assert FromBe([b]) == b by { assert [b][..0] == []; }
        r := Success(b);
      } else {
        var raw :- ReadN(4);
        r := Success(FromBe(raw));
      }
    }

    method ReadBinary(w: width) returns (r: Result<bytes>)
      requires Valid()
      modifies this`pos
      ensures Did(old(pos), r, ReadRaw(w, buf[old(pos)..]))
    {
      ghost var s := buf[pos..];
      var size :- ReadSize(w);
      hide SizeAt;
      assert buf[pos..] == s[w..];
      r := ReadN(size);
      assert |s| >= w + size ==> s[w..][..size] == s[w..w + size];
    }

    /** The size is read and ignored; a count no buffer could hold is refused before anything is allocated. */
    method ReadHeader(w: width) returns (r: Result<nat>)
      requires Valid()
      modifies this`pos
      ensures Did(old(pos), r, ReadCount(w, buf[old(pos)..]))
    {
      ghost var s := buf[pos..];
      var _ :- ReadSize(w);
      assert buf[pos..] == s[w..];
      hide SizeAt;
      var count :- ReadSize(w);
      if count > |buf| - pos {
        return Failure(CollectionTooLarge);
      }
      r := Success(count);
    }

    method ReadList(w: width) returns (r: Result<Value>)
      requires Valid()
      modifies this
      ensures Did(old(pos), r, AmqpCodec.ReadList(w, buf[old(pos)..]))
      ensures reserved == old(reserved) + ReservedList(w, buf[old(pos)..])
      decreases |buf| - pos, 3
    {
      hide ReadItems, ReadCount, ReservedItems;
      var count :- ReadHeader(w);
      assert old(buf[pos..])[2 * w..] == buf[pos..];
      reserved := reserved + count;
      var items :- ReadElements(count);
      r := Success(List(items));
    }

    /** The loop of readList. */
    method ReadElements(count: nat) returns (r: Result<seq<Value>>)
      requires Valid()
      modifies this
      ensures Did(old(pos), r, ReadItems(buf[old(pos)..], count))
      ensures reserved == old(reserved) + ReservedItems(buf[old(pos)..], count)
      decreases |buf| - pos, 2
    {
      hide AmqpCodec.Read, ReadItems, Reserved, ReservedItems;
      ghost var s, start := buf[pos..], pos;
      var items: seq<Value> := [];
      ghost var all := ReadItems(s, count);
      assert all.Ok? ==> [] + all.value == all.value;
      for i := 0 to count
        invariant Valid() && start <= pos && |items| == i
        invariant ItemsFrom(items, pos - start, ReadItems(buf[pos..], count - i)) == all
        invariant reserved + ReservedItems(buf[pos..], count - i) == old(reserved) + ReservedItems(s, count)
      {
        ghost var rest := buf[pos..];
        ReadItemsUnfold(rest, count - i);
        ReservedItemsUnfold(rest, count - i);
        var v :- ReadValue();
        assert rest[AmqpCodec.Read(rest).used..] == buf[pos..];
        ghost var tail := ReadItems(buf[pos..], count - i - 1);
        assert tail.Ok? ==> items + ([v] + tail.value) == items + [v] + tail.value;
        items := items + [v];
      }
      ReadItemsUnfold(buf[pos..], 0);
      ReservedItemsUnfold(buf[pos..], 0);
      assert items + [] == items;
      r := Success(items);
    }

    /** One turn of readMap's loop: a key, a value, and the insertion, which panics on an unhashable key. */
    method ReadPair() returns (r: Result<Entry>)
      requires Valid()
      modifies this
      ensures Did(old(pos), r, ReadEntry(buf[old(pos)..]))
      ensures reserved == old(reserved) + ReservedPair(buf[old(pos)..])
      decreases |buf| - pos, 1
    {
      hide AmqpCodec.Read;
      ghost var s := buf[pos..];
      var k :- ReadValue();
      assert s[AmqpCodec.Read(s).used..] == buf[pos..];
      var v :- ReadValue();
      if !Hashable(k) {
        return Failure(UnhashableKey);
      }
      r := Success(Entry(NormalizeKey(k), v));
    }

    method ReadMap(w: width) returns (r: Result<Value>)
      requires Valid()
      modifies this
      ensures Did(old(pos), r, AmqpCodec.ReadMap(w, buf[old(pos)..]))
      ensures reserved == old(reserved) + ReservedMap(w, buf[old(pos)..])
      decreases |buf| - pos, 3
    {
      hide ReadEntries, ReadCount, ReservedEntries;
      var count :- ReadHeader(w);
      assert old(buf[pos..])[2 * w..] == buf[pos..];
      reserved := reserved + count / 2;
      var m :- ReadPairs(count);
      r := Success(Map(m));
    }

    /** The loop of readMap. */
    method ReadPairs(count: nat) returns (r: Result<seq<Entry>>)
      requires Valid()
      modifies this
      ensures Did(old(pos), r, ReadEntries(buf[old(pos)..], (count + 1) / 2, []))
      ensures reserved == old(reserved) + ReservedEntries(buf[old(pos)..], (count + 1) / 2)
      decreases |buf| - pos, 2
    {
      hide AmqpCodec.Read, ReadEntries, ReadEntry, Put, ReservedPair, ReservedEntries;
      ghost var s, start, pairs := buf[pos..], pos, (count + 1) / 2;
      var m: seq<Entry> := [];
      var i := 0;
      while i < count
        invariant Valid() && start <= pos && 0 <= i <= 2 * pairs && i % 2 == 0
        invariant ReadEntries(buf[pos..], pairs - i / 2, m).After(pos - start) == ReadEntries(s, pairs, [])
        invariant reserved + ReservedEntries(buf[pos..], pairs - i / 2) == old(reserved) + ReservedEntries(s, pairs)
      {
        ghost var rest := buf[pos..];
        ReadEntriesUnfold(rest, pairs - i / 2, m);
        ReservedEntriesUnfold(rest, pairs - i / 2);
        var e :- ReadPair();
        assert rest[ReadEntry(rest).used..] == buf[pos..];
        m := Put(m, e);
        i := i + 2;
      }
      ReadEntriesUnfold(buf[pos..], 0, m);
      ReservedEntriesUnfold(buf[pos..], 0);
      r := Success(m);
    }
  }

  /** A list read in two parts: the items so far and what reading the rest gives. */
  ghost function ItemsFrom(items: seq<Value>, used: nat, rest: Parsed<seq<Value>>): Parsed<seq<Value>> {
    match rest
    case Ok(vs, n) => Ok(items + vs, used + n)
    case Fail(e) => Fail(e)
  }

  lemma ReadItemsUnfold(s: bytes, count: nat)
    ensures ReadItems(s, count) ==
            if count == 0 then Ok([], 0)
            else match Read(s)
                 case Fail(e) => Fail(e)
                 case Ok(v, n) => ItemsFrom([v], n, ReadItems(s[n..], count - 1))
  {
    hide Read;
  }

  lemma ReadEntriesUnfold(s: bytes, pairs: nat, m: seq<Entry>)
    ensures ReadEntries(s, pairs, m) ==
            if pairs == 0 then Ok(m, 0)
            else match ReadEntry(s)
                 case Fail(e) => Fail(e)
                 case Ok(e, n) => ReadEntries(s[n..], pairs - 1, Put(m, e)).After(n)
  {
    hide ReadEntry;
  }

  lemma ReservedItemsUnfold(s: bytes, count: nat)
    ensures ReservedItems(s, count) ==
            if count == 0 then 0
            else Reserved(s) + match Read(s) case Ok(_, n) => ReservedItems(s[n..], count - 1) case Fail(_) => 0
  {
    hide Read, Reserved;
  }

  lemma ReservedEntriesUnfold(s: bytes, pairs: nat)
    ensures ReservedEntries(s, pairs) ==
            if pairs == 0 then 0
            else ReservedPair(s)
                 + match ReadEntry(s) case Ok(_, n) => ReservedEntries(s[n..], pairs - 1) case Fail(_) => 0
  {
    hide ReadEntry, ReservedPair;
  }

  lemma EncodeNoItems(items: seq<Value>)
    requires items == []
    ensures EncodeItems(items) == []
  {
  }

  lemma EncodeItemsAt(items: seq<Value>, i: nat)
    requires i < |items| && forall j | 0 <= j < |items| :: Encodable(items[j])
    ensures EncodeItems(items[i..]) == Encode(items[i]) + EncodeItems(items[i + 1..])
  {
    hide Encode;
    assert items[i..][1..] == items[i + 1..];
  }
}
