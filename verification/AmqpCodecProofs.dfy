/** What holds of every encoding and of every decoding, in the terms of AmqpCodec's specification functions. */
module AmqpCodecProofs {
  import opened Bytes
  import opened AmqpTypes
  import opened AmqpCodec

  const MAX_LENGTH := 0x1_0000_0000

  /** Every length and count fits the 32-bit fields that carry it. */
  predicate LengthsFit(v: Value) {
    match v
    case Str(s) => |s| < MAX_LENGTH
    case Sym(s) => |s| < MAX_LENGTH
    case Bin(s) => |s| < MAX_LENGTH
    case List(items) => |items| < MAX_LENGTH && forall i | 0 <= i < |items| :: LengthsFit(items[i])
    case Map(es) =>
      2 * |es| < MAX_LENGTH && forall i | 0 <= i < |es| :: LengthsFit(es[i].key) && LengthsFit(es[i].val)
    case Described(d, x) => LengthsFit(d) && LengthsFit(x)
    case _ => true
  }

  /** Every map inside v is one a Go program can hold. */
  predicate KeysHashable(v: Value) {
    match v
    case List(items) => forall i | 0 <= i < |items| :: KeysHashable(items[i])
    case Map(es) => forall i | 0 <= i < |es| :: Hashable(es[i].key) && KeysHashable(es[i].val)
    case Described(d, x) => KeysHashable(d) && KeysHashable(x)
    case _ => true
  }

  predicate Sendable(v: Value) {
    Encodable(v) && LengthsFit(v) && KeysHashable(v)
  }

  // ---- Round trip ----

  lemma ReadConstructor(c: byte, x: bytes, rest: bytes)
    ensures Read([c] + x + rest) == ReadBody(c, x + rest).After(1)
  {
    assert ([c] + x + rest)[1..] == x + rest;
  }

  lemma SizeAtInverse(w: width, n: nat, rest: bytes)
    requires n < if w == 1 then 0x100 else MAX_LENGTH
    ensures SizeAt(w, Be(w, n) + rest) == n
  {
    assert (Be(w, n) + rest)[..w] == Be(w, n);
    assert Pow256(1) == 0x100 && Pow256(4) == MAX_LENGTH;
    BeInverse(w, n);
  }

  lemma BeByte(n: byte)
    ensures Be(1, n) == [n]
  {
    assert Be(0, n / 0x100) == [];
  }

  lemma ReadRawInverse(raw: bytes, rest: bytes)
    requires |raw| < MAX_LENGTH
    ensures ReadRaw(if |raw| <= 255 then 1 else 4, Sized(raw) + rest) == Ok(raw, |Sized(raw)|)
  {
    hide Be, FromBe;
    var w := if |raw| <= 255 then 1 else 4;
    if w == 1 { BeByte(|raw|); }
    AppendAssoc(Be(w, |raw|), raw, rest);
    SizeAtInverse(w, |raw|, raw + rest);
    assert (Be(w, |raw|) + (raw + rest))[w..w + |raw|] == raw;
  }

  /** A header followed by at least `count` bytes reads as that count, in the width it was written in. */
  lemma ReadCountInverse(w: width, size: nat, count: nat, tail: bytes)
    requires count <= |tail| && count < if w == 1 then 0x100 else MAX_LENGTH
    ensures ReadCount(w, Be(w, size) + Be(w, count) + tail) == Ok(count, 2 * w)
  {
    AppendAssoc(Be(w, size), Be(w, count), tail);
    SizeAtInverse(w, count, tail);
  }

  /** Reading a collection: the header's type code selects the width the header was written in. */
  lemma ReadHeader(c8: byte, c32: byte, count: nat, body: bytes, rest: bytes) returns (w: width, s: bytes)
    requires count <= |body| && count < MAX_LENGTH
    ensures Read(CollectionHeader(c8, c32, count, |body|) + body + rest)
         == ReadBody(if w == 1 then c8 else c32, s).After(1)
    ensures ReadCount(w, s) == Ok(count, 2 * w)
    ensures |s| >= 2 * w && s[2 * w..] == body + rest
    ensures |CollectionHeader(c8, c32, count, |body|)| == 2 * w + 1
  {
    hide Read, ReadBody, ReadCount, Be;
    var small := count <= 255 && |body| + 1 <= 255;
    w := if small then 1 else 4;
    var size := if small then |body| + 1 else ToUint32(|body| + 4);
    var h, c := Be(w, size) + Be(w, count), if small then c8 else c32;
    if small { BeByte(size); BeByte(count); }
    s := h + (body + rest);
    ReadCountInverse(w, size, count, body + rest);
    assert CollectionHeader(c8, c32, count, |body|) == [c] + h;
    AppendAssoc([c] + h, body, rest);
    ReadConstructor(c, h, body + rest);
    assert s[2 * w..] == body + rest;
  }

  lemma {:induction false} EncodeItemsLength(items: seq<Value>)
    requires forall i | 0 <= i < |items| :: Encodable(items[i])
    ensures |EncodeItems(items)| >= |items|
  {
    if items != [] { EncodeItemsLength(items[1..]); }
  }

  lemma {:induction false} EncodeEntriesLength(es: seq<Entry>)
    requires forall i | 0 <= i < |es| :: Encodable(es[i].key) && Encodable(es[i].val)
    ensures |EncodeEntries(es)| >= 2 * |es|
  {
    if es != [] { EncodeEntriesLength(es[1..]); }
  }

  lemma {:induction false} NormHashable(k: Value)
    ensures Hashable(Norm(k)) == Hashable(k)
    ensures Hashable(k) ==> Norm(k) == k && KeysHashable(k)
  {
    match k
    case Described(d, x) => NormHashable(d); NormHashable(x);
    case _ =>
  }

  /** Decoding an encoding gives the value back and stops exactly where the encoding ends. */
  lemma {:induction false} RoundTrip(v: Value, rest: bytes)
    requires Sendable(v)
    ensures Read(Encode(v) + rest) == Ok(Norm(v), |Encode(v)|)
    decreases v, 1
  {
    hide Read, ReadBody, CollectionHeader;
    if v.Described? {
      RoundTrip(v.descriptor, Encode(v.value) + rest);
      RoundTrip(v.value, rest);
      ReadDescribedInverse(v.descriptor, v.value, rest);
    } else if v.List? {
      RoundTripList(v.items, rest);
    } else if v.Map? {
      RoundTripMap(v.entries, rest);
    } else {
      RoundTripConstructor(v, rest);
    }
  }

  lemma RoundTripConstructor(v: Value, rest: bytes)
    requires Sendable(v) && Scalar(v)
    ensures Read(Encode(v) + rest) == Ok(Norm(v), |Encode(v)|)
  {
    hide Read, ScalarBody, ReadScalar;
    ReadConstructor(ScalarCode(v), ScalarBody(v), rest);
    RoundTripScalar(v, rest);
  }

  lemma ReadDescribedInverse(d: Value, x: Value, rest: bytes)
    requires Encodable(d) && Encodable(x)
    requires Read(Encode(d) + (Encode(x) + rest)) == Ok(Norm(d), |Encode(d)|)
    requires Read(Encode(x) + rest) == Ok(Norm(x), |Encode(x)|)
    ensures Read([0x00] + (Encode(d) + Encode(x)) + rest)
         == Ok(Described(Norm(d), Norm(x)), 1 + |Encode(d)| + |Encode(x)|)
  {
    hide Read;
    ReadConstructor(0x00, Encode(d) + Encode(x), rest);
    AppendAssoc(Encode(d), Encode(x), rest);
  }

  predicate FixedReadsBack(v: Value)
    requires Encodable(v) && Scalar(v)
  {
    LayoutOf(ScalarCode(v)) == Fixed(|ScalarBody(v)|) && FixedValue(ScalarCode(v), ScalarBody(v)) == v
  }

  lemma RoundTripUint(n: uint32)
    ensures n < 0x100 ==> FixedReadsBack(Ubyte(n))
    ensures n < 0x1_0000 ==> FixedReadsBack(Ushort(n))
    ensures FixedReadsBack(Uint(n))
  {
    assert Pow256(1) == 0x100 && Pow256(2) == 0x1_0000 && Pow256(4) == 0x1_0000_0000;
    if n < 0x100 { BeByte(n); BeInverse(1, n); }
    hide Be, FromBe, Pow256, Signed8, Signed16, Signed32, Signed64;
    if n < 0x1_0000 { BeInverse(2, n); }
    BeInverse(4, n);
  }

  lemma RoundTripUlong(n: uint64)
    ensures FixedReadsBack(Ulong(n))
  {
    assert Pow256(8) == 0x1_0000_0000_0000_0000;
    hide Be, FromBe, Pow256, Signed8, Signed16, Signed32, Signed64;
    BeInverse(8, n);
  }

  lemma RoundTripInt(n: int32)
    ensures FixedReadsBack(Int(n))
  {
    assert Pow256(4) == 0x1_0000_0000;
    hide Be, FromBe, Pow256, ToUint32, ToUint64, Signed8, Signed16, Signed32, Signed64;
    Signed32Inverse(n);
    BeInverse(4, ToUint32(n));
  }

  lemma RoundTripLong(n: int64)
    ensures FixedReadsBack(Long(n)) && FixedReadsBack(Timestamp(n))
  {
    assert Pow256(8) == 0x1_0000_0000_0000_0000;
    hide Be, FromBe, Pow256, ToUint32, ToUint64, Signed8, Signed16, Signed32, Signed64;
    Signed64Inverse(n);
    BeInverse(8, ToUint64(n));
  }

  lemma RoundTripFixed(v: Value)
    requires Encodable(v) && Scalar(v) && !v.Str? && !v.Sym? && !v.Bin?
    ensures FixedReadsBack(v)
  {
    match v
    case Ubyte(n) => RoundTripUint(n);
    case Ushort(n) => RoundTripUint(n);
    case Uint(n) => RoundTripUint(n);
    case Ulong(n) => RoundTripUlong(n);
    case Int(n) => RoundTripInt(n);
    case Long(n) => RoundTripLong(n);
    case Timestamp(n) => RoundTripLong(n);
    case _ =>
  }

  lemma RoundTripScalar(v: Value, rest: bytes)
    requires Encodable(v) && LengthsFit(v) && Scalar(v)
    ensures ReadScalar(ScalarCode(v), ScalarBody(v) + rest) == Ok(v, |ScalarBody(v)|)
  {
    hide Be, FromBe, ReadRaw, Sized;
    if v.Str? {
      ReadRawInverse(v.text, rest);
    } else if v.Sym? {
      ReadRawInverse(v.name, rest);
    } else if v.Bin? {
      ReadRawInverse(v.raw, rest);
    } else {
      hide ScalarBody, ScalarCode, FixedValue, LayoutOf;
      RoundTripFixed(v);
      AppendAssoc(ScalarBody(v), rest, []);
      assert ScalarBody(v) + rest + [] == ScalarBody(v) + rest;
    }
  }

  lemma {:induction false} RoundTripList(items: seq<Value>, rest: bytes)
    requires Sendable(List(items))
    ensures Read(EncodeList(items) + rest) == Ok(List(NormItems(items)), |EncodeList(items)|)
    decreases items, 1
  {
    hide Read, ReadBody, ReadItems, EncodeItems, CollectionHeader, ReadCount, NormItems;
    if items == [] {
      ReadEmptyList(rest);
      assert NormItems([]) == [];
    } else {
      assert |items| < MAX_LENGTH;
      hide LengthsFit, KeysHashable;
      EncodeItemsLength(items);
      var w, s := ReadHeader(0xc0, 0xd0, |items|, EncodeItems(items), rest);
      RoundTripItems(items, rest);
      ReadListBody(w, s, |items|);
    }
  }

  lemma ReadEmptyList(rest: bytes)
    ensures Read([0x45] + rest) == Ok(List([]), 1)
  {
    assert [0x45] == [0x45] + [];
    ReadConstructor(0x45, [], rest);
  }

  lemma ReadListBody(w: width, s: bytes, count: nat)
    requires |s| >= 2 * w && ReadCount(w, s) == Ok(count, 2 * w)
    ensures ReadBody(if w == 1 then 0xc0 else 0xd0, s) ==
            var r := ReadItems(s[2 * w..], count).After(2 * w);
            if r.Ok? then Ok(List(r.value), r.used) else Fail(r.error)
  {
    hide ReadItems, ReadCount;
  }

  lemma {:induction false} RoundTripMap(es: seq<Entry>, rest: bytes)
    requires Sendable(Map(es))
    ensures Read(Encode(Map(es)) + rest) == Ok(Norm(Map(es)), |Encode(Map(es))|)
    decreases es, 1
  {
    hide Read, ReadEntries, EncodeEntries, CollectionHeader, ReadCount, NormEntries, PutAll;
    EncodeEntriesLength(es);
    var w, s := ReadHeader(0xc1, 0xd1, 2 * |es|, EncodeEntries(es), rest);
    RoundTripEntries(es, rest, []);
  }

  lemma ReadItemsCons(head: bytes, tail: bytes, v: Value, vs: seq<Value>, n: nat)
    requires Read(head + tail) == Ok(v, |head|)
    requires ReadItems(tail, |vs|) == Ok(vs, n)
    ensures ReadItems(head + tail, |vs| + 1) == Ok([v] + vs, |head| + n)
  {
    hide Read;
    assert (head + tail)[|head|..] == tail;
  }

  lemma {:induction false} RoundTripItems(items: seq<Value>, rest: bytes)
    requires Sendable(List(items))
    ensures ReadItems(EncodeItems(items) + rest, |items|) == Ok(NormItems(items), |EncodeItems(items)|)
    decreases items, 0
  {
    hide Read, Encode;
    if items != [] {
      hide ReadItems;
      var head, tail := Encode(items[0]), EncodeItems(items[1..]);
      AppendAssoc(head, tail, rest);
      RoundTrip(items[0], tail + rest);
      RoundTripItems(items[1..], rest);
      ReadItemsCons(head, tail + rest, Norm(items[0]), NormItems(items[1..]), |tail|);
    }
  }

  lemma ReadEntryCons(k: bytes, v: bytes, tail: bytes, e: Entry)
    requires Read(k + (v + tail)) == Ok(e.key, |k|) && Hashable(e.key)
    requires Read(v + tail) == Ok(e.val, |v|)
    ensures ReadEntry(k + v + tail) == Ok(Entry(NormalizeKey(e.key), e.val), |k + v|)
  {
    hide Read;
    AppendAssoc(k, v, tail);
  }

  lemma ReadEntriesCons(head: bytes, tail: bytes, e: Entry, m: seq<Entry>, pairs: nat)
    requires ReadEntry(head + tail) == Ok(e, |head|)
    ensures ReadEntries(head + tail, pairs + 1, m) == ReadEntries(tail, pairs, Put(m, e)).After(|head|)
  {
    hide ReadEntry;
    assert (head + tail)[|head|..] == tail;
  }

  lemma {:induction false} RoundTripEntries(es: seq<Entry>, rest: bytes, m: seq<Entry>)
    requires Sendable(Map(es))
    ensures ReadEntries(EncodeEntries(es) + rest, |es|, m) == Ok(PutAll(m, NormEntries(es)), |EncodeEntries(es)|)
    decreases es, 0
  {
    hide Read, ReadEntry, EncodeEntry, Put, LengthsFit, KeysHashable, Hashable;
    if es != [] {
      hide ReadEntries;
      SendableParts(es);
      var e := NormEntry(es[0]);
      var head, tail := EncodeEntry(es[0]), EncodeEntries(es[1..]);
      NormHashable(es[0].key);
      RoundTripEntry(es[0], tail + rest);
      AppendAssoc(head, tail, rest);
      RoundTripEntries(es[1..], rest, Put(m, e));
      ReadEntriesCons(head, tail + rest, e, m, |es| - 1);
      assert NormEntries(es)[1..] == NormEntries(es[1..]);
    }
  }

  lemma SendableParts(es: seq<Entry>)
    requires Sendable(Map(es)) && es != []
    ensures Sendable(es[0].key) && Hashable(es[0].key) && Sendable(es[0].val) && Sendable(Map(es[1..]))
  {
    NormHashable(es[0].key);
  }

  lemma {:induction false} RoundTripEntry(e: Entry, rest: bytes)
    requires Sendable(e.key) && Hashable(e.key) && Sendable(e.val)
    ensures ReadEntry(EncodeEntry(e) + rest) == Ok(NormEntry(e), |EncodeEntry(e)|)
    decreases e, 0
  {
    NormHashable(e.key);
    RoundTrip(e.key, Encode(e.val) + rest);
    RoundTrip(e.val, rest);
    ReadEntryCons(Encode(e.key), Encode(e.val), rest, Entry(e.key, Norm(e.val)));
  }

  // ---- Keys the runtime cannot hash ----

  /**
   The decoder panics on the encoding of a value in which some map has a key the runtime cannot hash,
   whatever follows it.
   */
  lemma {:induction false} PanicsOnUnhashable(v: Value, rest: bytes)
    requires Encodable(v) && LengthsFit(v) && !KeysHashable(v)
    ensures Read(Encode(v) + rest) == Fail(UnhashableKey)
    decreases v, 1
  {
    hide Read, ReadBody, CollectionHeader;
    if v.Described? {
      var d, x := v.descriptor, v.value;
      ReadConstructor(0x00, Encode(d) + Encode(x), rest);
      AppendAssoc(Encode(d), Encode(x), rest);
      if KeysHashable(d) {
        RoundTrip(d, Encode(x) + rest);
        PanicsOnUnhashable(x, rest);
      } else {
        PanicsOnUnhashable(d, Encode(x) + rest);
      }
      DescribedPanics(Encode(d), Encode(x) + rest);
    } else if v.List? {
      ListPanics(v.items, rest);
    } else {
      MapPanics(v.entries, rest);
    }
  }

  lemma DescribedPanics(d: bytes, x: bytes)
    requires Read(d + x) == Fail(UnhashableKey) ||
             (Read(d + x).Ok? && Read(d + x).used == |d| && Read(x) == Fail(UnhashableKey))
    ensures ReadBody(0x00, d + x) == Fail(UnhashableKey)
  {
    hide Read;
    assert (d + x)[|d|..] == x;
  }

  lemma {:induction false} ListPanics(items: seq<Value>, rest: bytes)
    requires Encodable(List(items)) && LengthsFit(List(items)) && !KeysHashable(List(items))
    ensures Read(EncodeList(items) + rest) == Fail(UnhashableKey)
    decreases items, 1
  {
    hide Read, ReadBody, ReadItems, EncodeItems, CollectionHeader, ReadCount;
    EncodeItemsLength(items);
    var w, s := ReadHeader(0xc0, 0xd0, |items|, EncodeItems(items), rest);
    ItemsPanic(items, rest);
    ReadListBody(w, s, |items|);
  }

  lemma {:induction false} ItemsPanic(items: seq<Value>, rest: bytes)
    requires Encodable(List(items)) && LengthsFit(List(items)) && !KeysHashable(List(items))
    ensures ReadItems(EncodeItems(items) + rest, |items|) == Fail(UnhashableKey)
    decreases items, 0
  {
    hide Read, Encode;
    var head, tail := Encode(items[0]), EncodeItems(items[1..]);
    AppendAssoc(head, tail, rest);
    assert (head + (tail + rest))[|head|..] == tail + rest;
    if KeysHashable(items[0]) {
      RoundTrip(items[0], tail + rest);
      assert !KeysHashable(List(items[1..]));
      ItemsPanic(items[1..], rest);
    } else {
      PanicsOnUnhashable(items[0], tail + rest);
    }
  }

  lemma {:induction false} MapPanics(es: seq<Entry>, rest: bytes)
    requires Encodable(Map(es)) && LengthsFit(Map(es)) && !KeysHashable(Map(es))
    ensures Read(Encode(Map(es)) + rest) == Fail(UnhashableKey)
    decreases es, 1
  {
    hide Read, ReadEntries, EncodeEntries, CollectionHeader, ReadCount;
    EncodeEntriesLength(es);
    var w, s := ReadHeader(0xc1, 0xd1, 2 * |es|, EncodeEntries(es), rest);
    EntriesPanic(es, rest, []);
  }

  lemma {:induction false} EntriesPanic(es: seq<Entry>, rest: bytes, m: seq<Entry>)
    requires Encodable(Map(es)) && LengthsFit(Map(es)) && !KeysHashable(Map(es))
    ensures ReadEntries(EncodeEntries(es) + rest, |es|, m) == Fail(UnhashableKey)
    decreases es, 0
  {
    hide Read, ReadEntry, ReadEntries, EncodeEntry, Put, Encodable, LengthsFit, KeysHashable, Hashable;
    MapParts(es);
    var head, tail := EncodeEntry(es[0]), EncodeEntries(es[1..]);
    AppendAssoc(head, tail, rest);
    if Hashable(es[0].key) && KeysHashable(es[0].val) {
      var e := NormEntry(es[0]);
      NormHashable(es[0].key);
      RoundTripEntry(es[0], tail + rest);
      EntriesPanic(es[1..], rest, Put(m, e));
      ReadEntriesCons(head, tail + rest, e, m, |es| - 1);
    } else {
      EntryPanics(es[0], tail + rest);
      EntriesFail(head + (tail + rest), |es|, m);
    }
  }

  lemma EntriesFail(s: bytes, pairs: nat, m: seq<Entry>)
    requires pairs > 0 && ReadEntry(s).Fail?
    ensures ReadEntries(s, pairs, m) == Fail(ReadEntry(s).error)
  {
    hide ReadEntry;
  }

  /** What holds of a map holds of its first entry and of the rest. */
  lemma MapParts(es: seq<Entry>)
    requires Encodable(Map(es)) && LengthsFit(Map(es)) && !KeysHashable(Map(es))
    ensures es != [] && Encodable(Map(es[1..])) && LengthsFit(Map(es[1..]))
    ensures Encodable(es[0].key) && LengthsFit(es[0].key) && Encodable(es[0].val) && LengthsFit(es[0].val)
    ensures Hashable(es[0].key) ==> KeysHashable(es[0].key)
    ensures Hashable(es[0].key) && KeysHashable(es[0].val) ==> !KeysHashable(Map(es[1..]))
  {
    NormHashable(es[0].key);
  }

  lemma {:induction false} EntryPanics(e: Entry, rest: bytes)
    requires Encodable(e.key) && Encodable(e.val) && LengthsFit(e.key) && LengthsFit(e.val)
    requires !(Hashable(e.key) && KeysHashable(e.val))
    ensures ReadEntry(EncodeEntry(e) + rest) == Fail(UnhashableKey)
    decreases e, 0
  {
    hide Read, Encode;
    var k, v := Encode(e.key), Encode(e.val);
    AppendAssoc(k, v, rest);
    assert (k + (v + rest))[|k|..] == v + rest;
    if KeysHashable(e.key) {
      RoundTrip(e.key, v + rest);
      NormHashable(e.key);
      if KeysHashable(e.val) {
        RoundTrip(e.val, rest);
      } else {
        PanicsOnUnhashable(e.val, rest);
      }
    } else {
      PanicsOnUnhashable(e.key, v + rest);
    }
  }

  // ---- What a map loses ----

  predicate DistinctKeys(es: seq<Entry>) {
    forall i, j | 0 <= i < j < |es| :: es[i].key != es[j].key
  }

  predicate KeyIn(m: seq<Entry>, k: Value) {
    exists i | 0 <= i < |m| :: m[i].key == k
  }

  lemma {:induction false} PutSize(m: seq<Entry>, e: Entry)
    ensures KeyIn(m, e.key) ==> |Put(m, e)| == |m|
    ensures !KeyIn(m, e.key) ==> Put(m, e) == m + [e]
  {
    if m != [] && m[0].key != e.key {
      PutSize(m[1..], e);
      assert KeyIn(m[1..], e.key) ==> KeyIn(m, e.key);
      assert forall i | 0 < i < |m| :: m[i] == m[1..][i - 1];
    }
  }

  lemma {:induction false} PutAllSize(m: seq<Entry>, es: seq<Entry>)
    ensures |PutAll(m, es)| <= |m| + |es|
    ensures DistinctKeys(m + es) ==> PutAll(m, es) == m + es
    ensures DistinctKeys(m) && |PutAll(m, es)| == |m| + |es| ==> DistinctKeys(m + es)
    decreases es
  {
    if es == [] {
      assert m + es == m;
    } else {
      PutSize(m, es[0]);
      PutAllSize(Put(m, es[0]), es[1..]);
      if !KeyIn(m, es[0].key) {
        assert m + [es[0]] + es[1..] == m + es;
      } else {
        var i :| 0 <= i < |m| && m[i].key == es[0].key;
        assert (m + es)[i].key == (m + es)[|m|].key;
      }
    }
  }

  lemma WholeIfDistinct(es: seq<Entry>)
    ensures Norm(Map(es)) == Map(NormEntries(es)) <==> DistinctKeys(NormEntries(es))
  {
    hide NormEntries, PutAll, DistinctKeys;
    PutAllSize([], NormEntries(es));
    assert [] + NormEntries(es) == NormEntries(es);
    assert DistinctKeys([]) by { NoKeys(); }
  }

  lemma NoKeys()
    ensures DistinctKeys([])
  {
  }

  /** A symbol key and a string key of one name. */
  predicate Clash(a: Value, b: Value) {
    a.Sym? && b.Str? && a.name == b.text
  }

  predicate KeysApart(es: seq<Entry>) {
    forall i, j | 0 <= i < |es| && 0 <= j < |es| :: !Clash(es[i].key, es[j].key)
  }

  /** What a Go map gives the encoder: no key twice, each one hashable. */
  predicate IsGoMap(es: seq<Entry>) {
    DistinctKeys(es) && forall i | 0 <= i < |es| :: Hashable(es[i].key)
  }

  lemma ClashNormalised(a: Value, b: Value)
    requires Hashable(a) && Hashable(b) && a != b
    ensures NormalizeKey(Norm(a)) == NormalizeKey(Norm(b)) <==> Clash(a, b) || Clash(b, a)
  {
    NormHashable(a);
    NormHashable(b);
  }

  /**
   A map keeps an entry for every one written, in the same order, exactly when no symbol key has the
   name of a string key of the same map. The values are what they became themselves.
   */
  lemma MapLosesNothing(es: seq<Entry>)
    requires IsGoMap(es)
    ensures Norm(Map(es)) == Map(NormEntries(es)) <==> KeysApart(es)
  {
    hide Norm, NormalizeKey, Hashable, PutAll;
    WholeIfDistinct(es);
    var keys := NormEntries(es);
    forall i, j | 0 <= i < j < |es|
      ensures keys[i].key == keys[j].key <==> Clash(es[i].key, es[j].key) || Clash(es[j].key, es[i].key)
    {
      ClashNormalised(es[i].key, es[j].key);
    }
  }

  /**
   The map with the symbol and the string "a" is read back with one entry, the one written last: what
   it holds depends on the order the runtime ranged over it.
   */
  lemma SymbolMeetsString(x: Value, y: Value, rest: bytes)
    requires Sendable(x) && Sendable(y)
    ensures var m := Map([Entry(Sym([97]), x), Entry(Str([97]), y)]);
            Sendable(m) && Read(Encode(m) + rest) == Ok(Map([Entry(Str([97]), Norm(y))]), |Encode(m)|)
    ensures var m := Map([Entry(Str([97]), y), Entry(Sym([97]), x)]);
            Sendable(m) && Read(Encode(m) + rest) == Ok(Map([Entry(Str([97]), Norm(x))]), |Encode(m)|)
  {
    OneNameTwice(Sym([97]), x, Str([97]), y, rest);
    OneNameTwice(Str([97]), y, Sym([97]), x, rest);
  }

  lemma OneNameTwice(k: Value, x: Value, l: Value, y: Value, rest: bytes)
    requires Sendable(k) && Hashable(k) && Sendable(l) && Hashable(l) && Sendable(x) && Sendable(y)
    requires NormalizeKey(k) == NormalizeKey(l)
    ensures var m := Map([Entry(k, x), Entry(l, y)]);
            Sendable(m) && Read(Encode(m) + rest) == Ok(Map([Entry(NormalizeKey(k), Norm(y))]), |Encode(m)|)
  {
    var m := Map([Entry(k, x), Entry(l, y)]);
    assert Sendable(m);
    hide Read, Encode, Encodable, LengthsFit, KeysHashable, Hashable, NormalizeKey, PutAll;
    RoundTrip(m, rest);
    NormHashable(k);
    NormHashable(l);
    assert NormEntries(m.entries) == [NormEntry(Entry(k, x)), NormEntry(Entry(l, y))];
    PutTwice(NormalizeKey(k), Norm(x), Norm(y));
  }

  lemma PutTwice(k: Value, x: Value, y: Value)
    ensures PutAll([], [Entry(k, x), Entry(k, y)]) == [Entry(k, y)]
  {
    var e, f := Entry(k, x), Entry(k, y);
    assert [e, f][1..] == [f] && [f][1..] == [] && [e][1..] == [];
    assert Put([], e) == [e];
    assert Put([e], f) == [f] + [] == [f];
    assert PutAll([f], []) == [f];
    assert PutAll([e], [f]) == [f];
  }

  // ---- Lengths ----

  lemma {:induction false} ItemShorter(items: seq<Value>, i: nat)
    requires forall j | 0 <= j < |items| :: Encodable(items[j])
    requires i < |items|
    ensures |Encode(items[i])| <= |EncodeItems(items)|
  {
    if i > 0 { ItemShorter(items[1..], i - 1); }
  }

  lemma {:induction false} EntryShorter(es: seq<Entry>, i: nat)
    requires forall j | 0 <= j < |es| :: Encodable(es[j].key) && Encodable(es[j].val)
    requires i < |es|
    ensures |Encode(es[i].key)| + |Encode(es[i].val)| <= |EncodeEntries(es)|
  {
    if i > 0 { EntryShorter(es[1..], i - 1); }
  }

  /** A value whose whole encoding has a 32-bit length has no length or count that does not fit. */
  lemma {:induction false} ShortEncodingFits(v: Value)
    requires Encodable(v) && |Encode(v)| < MAX_LENGTH
    ensures LengthsFit(v)
    decreases v
  {
    hide Be;
    match v
    case List(items) =>
      EncodeItemsLength(items);
      forall i | 0 <= i < |items| ensures LengthsFit(items[i]) {
        ItemShorter(items, i);
        ShortEncodingFits(items[i]);
      }
    case Map(es) =>
      EncodeEntriesLength(es);
      forall i | 0 <= i < |es| ensures LengthsFit(es[i].key) && LengthsFit(es[i].val) {
        EntryShorter(es, i);
        var Entry(k, x) := es[i];
        assert k < es[i] && x < es[i];
        ShortEncodingFits(k);
        ShortEncodingFits(x);
      }
    case Described(d, x) => ShortEncodingFits(d); ShortEncodingFits(x);
    case _ =>
  }

  // ---- What a decoding depends on ----

  lemma Resume(s: bytes, k: nat, n: nat, t: bytes)
    requires k <= n <= |s|
    ensures s[..n] + t == s[..k] + (s[k..][..n - k] + t)
    ensures (s[..n] + t)[k..] == s[k..][..n - k] + t
  {
  }

  /** A decoding depends only on the bytes it used: any continuation gives the same value and position. */
  lemma {:induction false} ReadLocal(s: bytes, t: bytes)
    requires Read(s).Ok?
    ensures Read(s[..Read(s).used] + t) == Read(s)
    decreases |s|, 0
  {
    hide ReadBody;
    var n := Read(s).used;
    ReadBodyLocal(s[0], s[1..], t);
    Resume(s, 1, n, t);
  }

  lemma {:induction false} ReadBodyLocal(code: byte, s: bytes, t: bytes)
    requires ReadBody(code, s).Ok?
    ensures ReadBody(code, s[..ReadBody(code, s).used] + t) == ReadBody(code, s)
    decreases |s|, 4
  {
    hide Read, ReadList, ReadMap, ReadDescribed, ReadScalar;
    match code
    case 0xc0 => ReadListLocal(1, s, t);
    case 0xd0 => ReadListLocal(4, s, t);
    case 0xc1 => ReadMapLocal(1, s, t);
    case 0xd1 => ReadMapLocal(4, s, t);
    case 0x00 => ReadDescribedLocal(s, t);
    case _ => ReadScalarLocal(code, s, t);
  }

  lemma ReadScalarLocal(code: byte, s: bytes, t: bytes)
    requires ReadScalar(code, s).Ok?
    ensures ReadScalar(code, s[..ReadScalar(code, s).used] + t) == ReadScalar(code, s)
  {
    hide FixedValue, VariableValue, FromBe;
    var n := ReadScalar(code, s).used;
    var p := s[..n] + t;
    match LayoutOf(code)
    case Fixed(_) => assert p[..n] == s[..n];
    case Variable(w) => assert p[..w] == s[..w] && p[w..n] == s[w..n];
    case _ =>
  }

  lemma {:induction false} ReadDescribedLocal(s: bytes, t: bytes)
    requires ReadDescribed(s).Ok?
    ensures ReadDescribed(s[..ReadDescribed(s).used] + t) == ReadDescribed(s)
    decreases |s|, 1
  {
    hide Read;
    var n, k := ReadDescribed(s).used, Read(s).used;
    Resume(s, k, n, t);
    ReadLocal(s, s[k..][..n - k] + t);
    ReadLocal(s[k..], t);
  }

  lemma ReadCountLocal(w: width, s: bytes, n: nat, t: bytes)
    requires ReadCount(w, s).Ok? && 2 * w + ReadCount(w, s).value <= n <= |s|
    ensures ReadCount(w, s[..n] + t) == ReadCount(w, s)
  {
    hide FromBe;
    assert (s[..n] + t)[w..][..w] == s[w..][..w];
  }

  lemma {:induction false} ReadListLocal(w: width, s: bytes, t: bytes)
    requires ReadList(w, s).Ok?
    ensures ReadList(w, s[..ReadList(w, s).used] + t) == ReadList(w, s)
    decreases |s|, 3
  {
    hide ReadItems, ReadCount;
    var n, h := ReadList(w, s).used, 2 * w;
    Resume(s, h, n, t);
    ReadCountLocal(w, s, n, t);
    ReadItemsLocal(s[h..], ReadCount(w, s).value, t);
  }

  lemma {:induction false} ReadItemsLocal(s: bytes, count: nat, t: bytes)
    requires ReadItems(s, count).Ok?
    ensures ReadItems(s[..ReadItems(s, count).used] + t, count) == ReadItems(s, count)
    decreases |s|, 2, count
  {
    hide Read;
    if count > 0 {
      var n, k := ReadItems(s, count).used, Read(s).used;
      Resume(s, k, n, t);
      ReadLocal(s, s[k..][..n - k] + t);
      ReadItemsLocal(s[k..], count - 1, t);
    }
  }

  lemma {:induction false} ReadMapLocal(w: width, s: bytes, t: bytes)
    requires ReadMap(w, s).Ok?
    ensures ReadMap(w, s[..ReadMap(w, s).used] + t) == ReadMap(w, s)
    decreases |s|, 3
  {
    hide ReadEntries, ReadCount;
    var n, h := ReadMap(w, s).used, 2 * w;
    Resume(s, h, n, t);
    ReadCountLocal(w, s, n, t);
    ReadEntriesLocal(s[h..], (ReadCount(w, s).value + 1) / 2, [], t);
  }

  lemma {:induction false} ReadEntriesLocal(s: bytes, pairs: nat, m: seq<Entry>, t: bytes)
    requires ReadEntries(s, pairs, m).Ok?
    ensures ReadEntries(s[..ReadEntries(s, pairs, m).used] + t, pairs, m) == ReadEntries(s, pairs, m)
    decreases |s|, 2, pairs
  {
    hide ReadEntry, Put;
    if pairs > 0 {
      var n, k := ReadEntries(s, pairs, m).used, ReadEntry(s).used;
      Resume(s, k, n, t);
      ReadEntryLocal(s, s[k..][..n - k] + t);
      ReadEntriesLocal(s[k..], pairs - 1, Put(m, ReadEntry(s).value), t);
    }
  }

  lemma {:induction false} ReadEntryLocal(s: bytes, t: bytes)
    requires ReadEntry(s).Ok?
    ensures ReadEntry(s[..ReadEntry(s).used] + t) == ReadEntry(s)
    decreases |s|, 1
  {
    hide Read;
    var n, k := ReadEntry(s).used, Read(s).used;
    Resume(s, k, n, t);
    ReadLocal(s, s[k..][..n - k] + t);
    ReadLocal(s[k..], t);
  }

  // ---- How much a decoding can build ----

  lemma {:induction false} PutWeight(m: seq<Entry>, e: Entry)
    ensures WeightOfEntries(Put(m, e)) <= WeightOfEntries(m) + WeightOfEntry(e)
  {
    hide Weight, WeightOfEntry;
    if m != [] && m[0].key != e.key { PutWeight(m[1..], e); }
  }

  /** The values decoded, with the bytes they hold, are never more than the bytes used. */
  lemma {:induction false} ReadBounded(s: bytes)
    requires Read(s).Ok?
    ensures Weight(Read(s).value) <= Read(s).used
    decreases |s|, 0
  {
    hide ReadBody;
    ReadBodyBounded(s[0], s[1..]);
  }

  lemma {:induction false} ReadBodyBounded(code: byte, s: bytes)
    requires ReadBody(code, s).Ok?
    ensures Weight(ReadBody(code, s).value) <= 1 + ReadBody(code, s).used
    decreases |s|, 4
  {
    hide Read, ReadList, ReadMap, ReadDescribed, ReadScalar;
    match code
    case 0xc0 => ReadListBounded(1, s);
    case 0xd0 => ReadListBounded(4, s);
    case 0xc1 => ReadMapBounded(1, s);
    case 0xd1 => ReadMapBounded(4, s);
    case 0x00 => ReadDescribedBounded(s);
    case _ => ReadScalarBounded(code, s);
  }

  lemma ReadScalarBounded(code: byte, s: bytes)
    requires ReadScalar(code, s).Ok?
    ensures Weight(ReadScalar(code, s).value) <= 1 + ReadScalar(code, s).used
  {
    hide FromBe;
  }

  lemma {:induction false} ReadDescribedBounded(s: bytes)
    requires ReadDescribed(s).Ok?
    ensures Weight(ReadDescribed(s).value) <= 1 + ReadDescribed(s).used
    decreases |s|, 1
  {
    hide Read;
    ReadBounded(s);
    ReadBounded(s[Read(s).used..]);
  }

  lemma {:induction false} ReadListBounded(w: width, s: bytes)
    requires ReadList(w, s).Ok?
    ensures Weight(ReadList(w, s).value) <= 1 + ReadList(w, s).used
    decreases |s|, 3
  {
    hide ReadItems, ReadCount;
    ReadItemsBounded(s[2 * w..], ReadCount(w, s).value);
  }

  lemma {:induction false} ReadMapBounded(w: width, s: bytes)
    requires ReadMap(w, s).Ok?
    ensures Weight(ReadMap(w, s).value) <= 1 + ReadMap(w, s).used
    decreases |s|, 3
  {
    hide ReadEntries, ReadCount;
    ReadEntriesBounded(s[2 * w..], (ReadCount(w, s).value + 1) / 2, []);
  }

  lemma {:induction false} ReadItemsBounded(s: bytes, count: nat)
    requires ReadItems(s, count).Ok?
    ensures WeightOf(ReadItems(s, count).value) <= ReadItems(s, count).used
    decreases |s|, 2, count
  {
    hide Read, Weight;
    if count > 0 {
      ReadBounded(s);
      ReadItemsBounded(s[Read(s).used..], count - 1);
    }
  }

  lemma {:induction false} ReadEntriesBounded(s: bytes, pairs: nat, m: seq<Entry>)
    requires ReadEntries(s, pairs, m).Ok?
    ensures WeightOfEntries(ReadEntries(s, pairs, m).value) <= WeightOfEntries(m) + ReadEntries(s, pairs, m).used
    decreases |s|, 2, pairs
  {
    hide ReadEntry, Weight, Put, WeightOfEntries;
    if pairs > 0 {
      var e := ReadEntry(s).value;
      ReadEntryBounded(s);
      PutWeight(m, e);
      ReadEntriesBounded(s[ReadEntry(s).used..], pairs - 1, Put(m, e));
    }
  }

  lemma {:induction false} ReadEntryBounded(s: bytes)
    requires ReadEntry(s).Ok?
    ensures WeightOfEntry(ReadEntry(s).value) <= ReadEntry(s).used
    decreases |s|, 1
  {
    hide Read;
    ReadBounded(s);
    ReadBounded(s[Read(s).used..]);
  }
}
