/**
 What the decoder makes of the forms this encoder never writes: compact constructors, long forms of short
 values, maps of odd counts, unknown type codes and inputs that end early.
 */
module AmqpForms {
  import opened Bytes
  import opened AmqpTypes
  import opened AmqpCodec
  import opened AmqpCodecProofs

  // ---- Compact constructors ----

  lemma OneByte(b: byte)
    ensures FromBe([b]) == b
  {
    assert [b][..0] == [];
  }

  lemma TwoBytes(b: byte, c: byte)
    ensures FromBe([b, c]) == 256 * b + c
  {
    assert [b, c][..1] == [b];
    OneByte(b);
  }

  /** A constructor, its bytes and whatever follows. */
  lemma FixedForm(code: byte, raw: bytes, tail: bytes)
    requires LayoutOf(code) == Fixed(|raw|) && code !in {0xc0, 0xd0, 0xc1, 0xd1, 0x00}
    ensures Read([code] + raw + tail) == Ok(FixedValue(code, raw), 1 + |raw|)
  {
    hide FixedValue, LayoutOf;
    ReadConstructor(code, raw, tail);
    assert (raw + tail)[..|raw|] == raw;
  }

  /** Zeros and the empty list take no byte, small unsigned numbers and booleans take one. */
  lemma CompactUnsigned(n: byte, tail: bytes)
    ensures Read([0x43] + [] + tail) == Ok(Uint(0), 1) && Read([0x44] + [] + tail) == Ok(Ulong(0), 1)
    ensures Read([0x45] + [] + tail) == Ok(List([]), 1)
    ensures Read([0x52] + [n] + tail) == Ok(Uint(n), 2) && Read([0x53] + [n] + tail) == Ok(Ulong(n), 2)
    ensures Read([0x56] + [n] + tail) == Ok(Bool(n != 0), 2)
  {
    hide Read;
    OneByte(n);
    FixedForm(0x43, [], tail);
    FixedForm(0x44, [], tail);
    FixedForm(0x45, [], tail);
    FixedForm(0x52, [n], tail);
    FixedForm(0x53, [n], tail);
    FixedForm(0x56, [n], tail);
  }

  /** Small signed numbers are one byte in two's complement, whatever they are widened to. */
  lemma CompactSigned(n: byte, tail: bytes)
    ensures var i := if n < 128 then n else n as int - 256;
            && Read([0x51] + [n] + tail) == Ok(Byte(i), 2)
            && Read([0x54] + [n] + tail) == Ok(Int(i), 2)
            && Read([0x55] + [n] + tail) == Ok(Long(i), 2)
  {
    hide Read;
    OneByte(n);
    FixedForm(0x51, [n], tail);
    FixedForm(0x54, [n], tail);
    FixedForm(0x55, [n], tail);
  }

  lemma ShortForm(b: byte, c: byte, tail: bytes)
    ensures var n := 256 * b + c;
            Read([0x61] + [b, c] + tail) == Ok(Short(if n < 32768 then n else n - 65536), 3)
  {
    hide Read;
    TwoBytes(b, c);
    FixedForm(0x61, [b, c], tail);
  }

  /** Floating-point numbers come as the integer with their bits. */
  lemma FloatForms(n: uint64, tail: bytes)
    ensures n < 0x1_0000_0000 ==> Read([0x72] + Be(4, n) + tail) == Ok(Uint(n), 5)
    ensures Read([0x82] + Be(8, n) + tail) == Ok(Ulong(n), 9)
  {
    assert Pow256(4) == 0x1_0000_0000 && Pow256(8) == 0x1_0000_0000_0000_0000;
    hide Read, Be, FromBe, Pow256;
    if n < 0x1_0000_0000 {
      BeInverse(4, n);
      FixedForm(0x72, Be(4, n), tail);
    }
    BeInverse(8, n);
    FixedForm(0x82, Be(8, n), tail);
  }

  /** A value in a compact form and the same value written wide are read as one. */
  lemma CompactIsWide(n: byte, tail: bytes)
    ensures var i := if n < 128 then n else n as int - 256;
            forall form |
              form in {(Uint(n), 0x52), (Ulong(n), 0x53), (Int(i), 0x54), (Long(i), 0x55), (Bool(n != 0), 0x56)} ::
              Read([form.1] + [n] + tail).Ok? && Read(Encode(form.0) + tail).Ok?
              && Read([form.1] + [n] + tail).value == Read(Encode(form.0) + tail).value
  {
    hide Read, Encode;
    var i := if n < 128 then n else n as int - 256;
    CompactUnsigned(n, tail);
    CompactSigned(n, tail);
    RoundTrip(Uint(n), tail);
    RoundTrip(Ulong(n), tail);
    RoundTrip(Int(i), tail);
    RoundTrip(Long(i), tail);
    RoundTrip(Bool(n != 0), tail);
  }

  // ---- Long forms of short values ----

  /** A string, symbol or binary of any length may come with a length of four bytes, a short one with one. */
  lemma TextForms(raw: bytes, tail: bytes)
    requires |raw| < MAX_LENGTH
    ensures var long := Be(4, |raw|) + raw;
            && Read([0xb1] + long + tail) == Ok(Str(raw), 5 + |raw|)
            && Read([0xb3] + long + tail) == Ok(Sym(raw), 5 + |raw|)
            && Read([0xb0] + long + tail) == Ok(Bin(raw), 5 + |raw|)
    ensures var short := [|raw|] + raw;
            |raw| < 256 ==>
              && Read([0xa1] + short + tail) == Ok(Str(raw), 2 + |raw|)
              && Read([0xa3] + short + tail) == Ok(Sym(raw), 2 + |raw|)
              && Read([0xa0] + short + tail) == Ok(Bin(raw), 2 + |raw|)
  {
    hide Read, Be;
    TextForm(0xb1, 4, raw, tail);
    TextForm(0xb3, 4, raw, tail);
    TextForm(0xb0, 4, raw, tail);
    if |raw| < 256 {
      BeByte(|raw|);
      TextForm(0xa1, 1, raw, tail);
      TextForm(0xa3, 1, raw, tail);
      TextForm(0xa0, 1, raw, tail);
    }
  }

  lemma TextForm(code: byte, w: width, raw: bytes, tail: bytes)
    requires LayoutOf(code) == Variable(w) && code !in {0xc0, 0xd0, 0xc1, 0xd1, 0x00}
    requires |raw| < if w == 1 then 0x100 else MAX_LENGTH
    ensures Read([code] + (Be(w, |raw|) + raw) + tail) == Ok(VariableValue(code, raw), 1 + w + |raw|)
  {
    hide Be, FromBe, VariableValue, LayoutOf;
    var body := Be(w, |raw|) + raw;
    ReadConstructor(code, body, tail);
    AppendAssoc(Be(w, |raw|), raw, tail);
    SizeAtInverse(w, |raw|, raw + tail);
    assert (body + tail)[w..w + |raw|] == raw;
  }

  /** The size and the count of a collection, in either width. */
  function Header(w: width, size: nat, count: nat): bytes {
    Be(w, size) + Be(w, count)
  }

  lemma HeaderRead(w: width, size: nat, count: nat, s: bytes)
    requires count < if w == 1 then 0x100 else MAX_LENGTH
    ensures ReadCount(w, Header(w, size, count) + s) == if count > |s| then Fail(CollectionTooLarge) else Ok(count, 2 * w)
    ensures (Header(w, size, count) + s)[2 * w..] == s
  {
    hide Be, FromBe;
    AppendAssoc(Be(w, size), Be(w, count), s);
    SizeAtInverse(w, count, s);
  }

  /** A list is read alike in both widths, whatever its size field says. */
  lemma ListForms(w: width, size: nat, items: seq<Value>, rest: bytes)
    requires Sendable(List(items)) && (w == 1 ==> |items| < 256)
    ensures var s := Header(w, size, |items|) + (EncodeItems(items) + rest);
            ReadBody(if w == 1 then 0xc0 else 0xd0, s) == Ok(List(NormItems(items)), 2 * w + |EncodeItems(items)|)
  {
    ItemsReadBack(items, rest);
    hide ReadBody, ReadItems, EncodeItems, NormItems, Header, Sendable;
    ListBody(w, size, |items|, EncodeItems(items) + rest, NormItems(items), |EncodeItems(items)|);
  }

  lemma ItemsReadBack(items: seq<Value>, rest: bytes)
    requires Sendable(List(items))
    ensures |items| <= |EncodeItems(items)| && |items| < MAX_LENGTH
    ensures ReadItems(EncodeItems(items) + rest, |items|) == Ok(NormItems(items), |EncodeItems(items)|)
  {
    assert |items| < MAX_LENGTH;
    hide ReadItems, EncodeItems, NormItems;
    EncodeItemsLength(items);
    RoundTripItems(items, rest);
  }

  lemma ListBody(w: width, size: nat, count: nat, s: bytes, items: seq<Value>, n: nat)
    requires count <= |s| && count < if w == 1 then 0x100 else MAX_LENGTH
    requires ReadItems(s, count) == Ok(items, n)
    ensures ReadBody(if w == 1 then 0xc0 else 0xd0, Header(w, size, count) + s) == Ok(List(items), 2 * w + n)
  {
    hide ReadItems, ReadBody, Header, ReadCount;
    HeaderRead(w, size, count, s);
    ReadListBody(w, Header(w, size, count) + s, count);
  }

  /** So is a map; its count may be one short, for its last value is read all the same. */
  lemma MapForms(w: width, size: nat, count: nat, es: seq<Entry>, rest: bytes)
    requires Sendable(Map(es)) && (count == 2 * |es| || count + 1 == 2 * |es|) && (w == 1 ==> count < 256)
    ensures var s := Header(w, size, count) + (EncodeEntries(es) + rest);
            ReadBody(if w == 1 then 0xc1 else 0xd1, s) == Ok(Norm(Map(es)), 2 * w + |EncodeEntries(es)|)
  {
    EntriesEncodable(es);
    hide ReadEntries, EncodeEntries, NormEntries, PutAll, ReadBody, Header, Norm, Sendable, Encode;
    EncodeEntriesLength(es);
    EntriesReadBack(es, (count + 1) / 2, rest);
    NormMap(es);
    MapBody(w, size, count, EncodeEntries(es) + rest, PutAll([], NormEntries(es)), |EncodeEntries(es)|);
  }

  lemma EntriesReadBack(es: seq<Entry>, pairs: nat, rest: bytes)
    requires Sendable(Map(es)) && pairs == |es|
    ensures ReadEntries(EncodeEntries(es) + rest, pairs, []) == Ok(PutAll([], NormEntries(es)), |EncodeEntries(es)|)
    ensures 2 * pairs < MAX_LENGTH
  {
    hide ReadEntries, NormEntries, PutAll;
    RoundTripEntries(es, rest, []);
  }

  lemma NormMap(es: seq<Entry>)
    ensures Norm(Map(es)) == Map(PutAll([], NormEntries(es)))
  {
  }

  lemma MapBody(w: width, size: nat, count: nat, s: bytes, m: seq<Entry>, n: nat)
    requires count <= |s| && count < if w == 1 then 0x100 else MAX_LENGTH
    requires ReadEntries(s, (count + 1) / 2, []) == Ok(m, n)
    ensures ReadBody(if w == 1 then 0xc1 else 0xd1, Header(w, size, count) + s) == Ok(Map(m), 2 * w + n)
  {
    hide ReadEntries, ReadBody, Header, ReadCount;
    HeaderRead(w, size, count, s);
    ReadMapBody(w, Header(w, size, count) + s, count);
  }

  lemma EntriesEncodable(es: seq<Entry>)
    requires Sendable(Map(es))
    ensures forall i | 0 <= i < |es| :: Encodable(es[i].key) && Encodable(es[i].val)
  {
  }

  lemma ReadMapBody(w: width, s: bytes, count: nat)
    requires |s| >= 2 * w && ReadCount(w, s) == Ok(count, 2 * w)
    ensures ReadBody(if w == 1 then 0xc1 else 0xd1, s) ==
            var r := ReadEntries(s[2 * w..], (count + 1) / 2, []).After(2 * w);
            if r.Ok? then Ok(Map(r.value), r.used) else Fail(r.error)
  {
    hide ReadEntries, ReadCount;
  }

  /** A collection that announces more elements than bytes follow is refused before anything is read. */
  lemma TooLarge(w: width, map_: bool, size: nat, count: nat, s: bytes)
    requires |s| < count < if w == 1 then 0x100 else MAX_LENGTH
    ensures ReadBody(if map_ then if w == 1 then 0xc1 else 0xd1 else if w == 1 then 0xc0 else 0xd0,
                     Header(w, size, count) + s) == Fail(CollectionTooLarge)
  {
    hide ReadCount, Header;
    HeaderRead(w, size, count, s);
  }

  // ---- What is refused ----

  /** Every constructor the decoder knows. */
  const CODES: set<int> := {
    0x00, 0x40, 0x41, 0x42, 0x43, 0x44, 0x45, 0x50, 0x51, 0x52, 0x53, 0x54, 0x55, 0x56, 0x60, 0x61, 0x70, 0x71, 0x72,
    0x80, 0x81, 0x82, 0x83, 0x98, 0xa0, 0xa1, 0xa3, 0xb0, 0xb1, 0xb3, 0xc0, 0xc1, 0xd0, 0xd1
  }

  /** A constructor is refused as unknown exactly when it is none of these. */
  lemma UnknownCodes(c: byte, s: bytes)
    ensures c !in CODES ==> Read([c] + s) == Fail(UnsupportedCode(c))
    ensures c in CODES ==> Read([c]) != Fail(UnsupportedCode(c))
  {
    hide FromBe;
    assert ([c] + s)[1..] == s && [c][1..] == [];
    assert Read([]) == Fail(EndOfBuffer);
  }

  /** No encoding is the beginning of another: cut short anywhere, it is refused. */
  lemma CutShort(v: Value, n: nat)
    requires Sendable(v) && n < |Encode(v)|
    ensures Read(Encode(v)[..n]).Fail?
  {
    hide Read, Encode, Encodable, LengthsFit, KeysHashable;
    var s := Encode(v);
    if Read(s[..n]).Ok? {
      var used := Read(s[..n]).used;
      ReadLocal(s[..n], s[used..]);
      assert s[..n][..used] + s[used..] == s;
      assert s + [] == s;
      RoundTrip(v, []);
    }
  }

  // ---- The sizes a peer is told ----

  /** A byte, or four, with the number of bytes behind them, and then as many with the number of elements. */
  predicate Announces(x: bytes, code8: byte, code32: byte, count: nat) {
    || (|x| >= 3 && x[0] == code8 && x[1] == |x| - 2 && x[2] == count)
    || (|x| >= 9 && x[0] == code32 && FromBe(x[1..5]) == |x| - 5 && FromBe(x[5..9]) == count)
  }

  lemma HeaderAnnounces(code8: byte, code32: byte, count: nat, body: bytes)
    requires count <= |body| && 9 + |body| < MAX_LENGTH
    ensures Announces(CollectionHeader(code8, code32, count, |body|) + body, code8, code32, count)
  {
    hide Be, FromBe;
    if count > 255 || |body| + 1 > 255 { WideFields(code32, |body| + 4, count, body); }
  }

  lemma WideFields(code: byte, size: nat, count: nat, body: bytes)
    requires size < MAX_LENGTH && count < MAX_LENGTH
    ensures var x := [code] + (Be(4, size) + Be(4, count)) + body;
            |x| == 9 + |body| && x[0] == code && FromBe(x[1..5]) == size && FromBe(x[5..9]) == count
  {
    BeInverse(4, size);
    BeInverse(4, count);
    hide Be, FromBe;
    var x := [code] + (Be(4, size) + Be(4, count)) + body;
    assert x[1..5] == Be(4, size);
    assert x[5..9] == Be(4, count);
  }

  /** A list or a map is written with the size and count the standard asks for, an empty list as one byte. */
  lemma SizesAreTrue(v: Value)
    requires Encodable(v) && (v.List? || v.Map?) && |Encode(v)| + 9 < MAX_LENGTH
    ensures v == List([]) ==> Encode(v) == [0x45]
    ensures v.List? && v.items != [] ==> Announces(Encode(v), 0xc0, 0xd0, |v.items|)
    ensures v.Map? ==> Announces(Encode(v), 0xc1, 0xd1, 2 * |v.entries|)
  {
    hide Announces, CollectionHeader, EncodeItems, EncodeEntries;
    match v
    case List(items) =>
      EncodeItemsLength(items);
      if items != [] { HeaderAnnounces(0xc0, 0xd0, |items|, EncodeItems(items)); }
    case Map(es) =>
      EncodeEntriesLength(es);
      HeaderAnnounces(0xc1, 0xd1, 2 * |es|, EncodeEntries(es));
  }

  /** The short form is taken whenever size and count fit one byte, and a text's whenever its length does. */
  lemma ShortWhenItFits(items: seq<Value>, raw: bytes)
    requires Encodable(List(items))
    ensures Encode(List(items))[0] ==
            if items == [] then 0x45 else if |items| <= 255 && |EncodeItems(items)| <= 254 then 0xc0 else 0xd0
    ensures Encode(Str(raw))[0] == (if |raw| <= 255 then 0xa1 else 0xb1)
    ensures Encode(Sym(raw))[0] == (if |raw| <= 255 then 0xa3 else 0xb3)
    ensures Encode(Bin(raw))[0] == (if |raw| <= 255 then 0xa0 else 0xb0)
  {
    hide EncodeItems, Be;
  }

  // ---- Keys of maps ----

  /** A slice or a map as a key of a map, by itself or inside a described value, makes the decoder panic. */
  lemma BadKeys(k: Value, d: Value, v: Value, rest: bytes)
    requires Sendable(k) && Sendable(d) && Sendable(v) && (k.Bin? || k.List? || k.Map?)
    requires LengthsFit(Described(k, d)) && LengthsFit(Described(d, k))
    ensures forall key | key in [k, Described(d, k), Described(k, d)] ::
              Encodable(Map([Entry(key, v)]))
              && Read(Encode(Map([Entry(key, v)])) + rest) == Fail(UnhashableKey)
  {
    BadKey(k, v, rest);
    BadKey(Described(d, k), v, rest);
    BadKey(Described(k, d), v, rest);
  }

  lemma BadKey(key: Value, v: Value, rest: bytes)
    requires Encodable(key) && Encodable(v) && LengthsFit(key) && LengthsFit(v) && !Hashable(key)
    ensures Encodable(Map([Entry(key, v)]))
    ensures Read(Encode(Map([Entry(key, v)])) + rest) == Fail(UnhashableKey)
  {
    var m := Map([Entry(key, v)]);
    assert m.entries[0] == Entry(key, v);
    hide Read, Encode;
    PanicsOnUnhashable(m, rest);
  }

  /** Any other key is a key; a symbol becomes a string. */
  lemma GoodKeys(k: Value, v: Value, rest: bytes)
    requires Sendable(k) && Sendable(v) && !k.Bin? && !k.List? && !k.Map? && !k.Described?
    ensures Sendable(Map([Entry(k, v)]))
    ensures Read(Encode(Map([Entry(k, v)])) + rest) ==
            Ok(Map([Entry(if k.Sym? then Str(k.name) else k, Norm(v))]), |Encode(Map([Entry(k, v)]))|)
  {
    var m := Map([Entry(k, v)]);
    OneEntry(k, v);
    hide Read, Encode, Norm, NormEntries, PutAll;
    RoundTrip(m, rest);
  }

  lemma OneEntry(k: Value, v: Value)
    requires Sendable(k) && Sendable(v) && !k.Bin? && !k.List? && !k.Map? && !k.Described?
    ensures Sendable(Map([Entry(k, v)]))
    ensures Norm(Map([Entry(k, v)])) == Map([Entry(if k.Sym? then Str(k.name) else k, Norm(v))])
  {
    var es := [Entry(k, v)];
    assert es[1..] == [] && NormEntries(es) == [NormEntry(es[0])];
    var ns := NormEntries(es);
    assert ns[1..] == [] && Put([], ns[0]) == ns && PutAll(ns, []) == ns;
    assert PutAll([], ns) == PutAll(Put([], ns[0]), ns[1..]);
    assert NormEntry(es[0]) == Entry(if k.Sym? then Str(k.name) else k, Norm(v));
  }
}
