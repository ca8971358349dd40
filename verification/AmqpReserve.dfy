/** The slots the decoder sets aside for a list or a map before it has read any of it, and what bounds them. */
module AmqpReserve {
  import opened Bytes
  import opened AmqpTypes
  import opened AmqpCodec
  import opened AmqpCodecProofs

  /** What reading one value reserves, whether the reading succeeds or not. */
  function Reserved(s: bytes): nat
    decreases |s|, 0
  {
    if s == [] then 0 else ReservedBody(s[0], s[1..])
  }

  function ReservedBody(code: byte, s: bytes): nat
    decreases |s|, 3
  {
    match code
    case 0xc0 => ReservedList(1, s)
    case 0xd0 => ReservedList(4, s)
    case 0xc1 => ReservedMap(1, s)
    case 0xd1 => ReservedMap(4, s)
    case 0x00 => ReservedPair(s)
    case _ => 0
  }

  /** Two values, the second read only after the first. */
  function ReservedPair(s: bytes): nat
    decreases |s|, 1
  {
    Reserved(s) + match Read(s) case Ok(_, n) => Reserved(s[n..]) case Fail(_) => 0
  }

  /** A slot for each element of a list. */
  function ReservedList(w: width, s: bytes): nat
    decreases |s|, 2
  {
    match ReadCount(w, s)
    case Fail(_) => 0
    case Ok(count, h) => count + ReservedItems(s[h..], count)
  }

  function ReservedItems(s: bytes, count: nat): nat
    decreases |s|, 1, count
  {
    if count == 0 then 0
    else Reserved(s) + match Read(s) case Ok(_, n) => ReservedItems(s[n..], count - 1) case Fail(_) => 0
  }

  /** A slot for each two elements of a map. */
  function ReservedMap(w: width, s: bytes): nat
    decreases |s|, 2
  {
    match ReadCount(w, s)
    case Fail(_) => 0
    case Ok(count, h) => count / 2 + ReservedEntries(s[h..], (count + 1) / 2)
  }

  function ReservedEntries(s: bytes, pairs: nat): nat
    decreases |s|, 2, pairs
  {
    if pairs == 0 then 0
    else ReservedPair(s) + match ReadEntry(s) case Ok(_, n) => ReservedEntries(s[n..], pairs - 1) case Fail(_) => 0
  }

  // ---- A decoding that succeeds ----

  /** What is decoded fills what was reserved: fewer slots than bytes used. */
  lemma {:induction false} ReservedIfOk(s: bytes)
    requires Read(s).Ok?
    ensures Reserved(s) < Read(s).used
    decreases |s|, 0
  {
    hide ReadBody, ReservedBody;
    ReservedBodyIfOk(s[0], s[1..]);
  }

  lemma {:induction false} ReservedBodyIfOk(code: byte, s: bytes)
    requires ReadBody(code, s).Ok?
    ensures ReservedBody(code, s) <= ReadBody(code, s).used
    decreases |s|, 4
  {
    hide Read, ReadList, ReadMap, ReadScalar, ReservedList, ReservedMap, ReservedPair;
    match code
    case 0xc0 => ReservedListIfOk(1, s);
    case 0xd0 => ReservedListIfOk(4, s);
    case 0xc1 => ReservedMapIfOk(1, s);
    case 0xd1 => ReservedMapIfOk(4, s);
    case 0x00 => ReservedPairIfOk(s);
    case _ =>
  }

  lemma {:induction false} ReservedPairIfOk(s: bytes)
    requires Read(s).Ok? && Read(s[Read(s).used..]).Ok?
    ensures ReservedPair(s) + 2 <= Read(s).used + Read(s[Read(s).used..]).used
    decreases |s|, 1
  {
    hide Read, Reserved;
    ReservedIfOk(s);
    ReservedIfOk(s[Read(s).used..]);
  }

  lemma {:induction false} ReservedListIfOk(w: width, s: bytes)
    requires ReadList(w, s).Ok?
    ensures ReservedList(w, s) <= ReadList(w, s).used
    decreases |s|, 3
  {
    hide ReadItems, ReadCount, ReservedItems;
    ReservedItemsIfOk(s[2 * w..], ReadCount(w, s).value);
  }

  lemma {:induction false} ReservedItemsIfOk(s: bytes, count: nat)
    requires ReadItems(s, count).Ok?
    ensures ReservedItems(s, count) + count <= ReadItems(s, count).used
    decreases |s|, 2, count
  {
    hide Read, Reserved;
    if count > 0 {
      ReservedIfOk(s);
      ReservedItemsIfOk(s[Read(s).used..], count - 1);
    }
  }

  lemma {:induction false} ReservedMapIfOk(w: width, s: bytes)
    requires ReadMap(w, s).Ok?
    ensures ReservedMap(w, s) <= ReadMap(w, s).used
    decreases |s|, 3
  {
    hide ReadEntries, ReadCount, ReservedEntries;
    ReservedEntriesIfOk(s[2 * w..], (ReadCount(w, s).value + 1) / 2, []);
  }

  lemma {:induction false} ReservedEntriesIfOk(s: bytes, pairs: nat, m: seq<Entry>)
    requires ReadEntries(s, pairs, m).Ok?
    ensures ReservedEntries(s, pairs) + 2 * pairs <= ReadEntries(s, pairs, m).used
    decreases |s|, 2, pairs
  {
    hide ReadEntry, Put, ReservedPair;
    if pairs > 0 {
      EntryIsPair(s);
      ReservedPairIfOk(s);
      ReservedEntriesIfOk(s[ReadEntry(s).used..], pairs - 1, Put(m, ReadEntry(s).value));
    }
  }

  lemma EntryIsPair(s: bytes)
    requires ReadEntry(s).Ok?
    ensures Read(s).Ok? && Read(s[Read(s).used..]).Ok?
    ensures ReadEntry(s).used == Read(s).used + Read(s[Read(s).used..]).used
  {
    hide Read;
  }

  // ---- Any decoding ----

  /** Eighteen times the bound on n bytes. */
  function Bound(n: nat): nat {
    n * n + 1530 * n
  }

  /** The header of a list or map is d bytes with its type code, and its count at most `count`. */
  lemma BoundHeader(n: nat, d: nat, count: nat)
    requires (d == 9 && count <= n) || (d == 3 && count <= 255)
    ensures 18 * count + Bound(n) <= Bound(n + d)
  {
    assert (n + d) * (n + d) == n * n + 2 * n * d + d * d;
  }

  lemma BoundAfter(n: nat, m: nat)
    ensures 18 * m + Bound(n) <= Bound(m + n)
  {
    assert (m + n) * (m + n) == m * m + 2 * m * n + n * n;
  }

  /**
   The count guards bound what is reserved before the decoding fails: one list or map reserves no more
   slots than bytes remain, and all of them together no more than (n * n + 1530 * n) / 18 on n bytes.
   */
  lemma {:induction false} ReservedBounded(s: bytes)
    ensures 18 * Reserved(s) <= Bound(|s|)
    decreases |s|, 0
  {
    hide ReservedBody, Bound;
    if s != [] {
      ReservedBodyBounded(s[0], s[1..]);
    }
  }

  lemma {:induction false} ReservedBodyBounded(code: byte, s: bytes)
    ensures 18 * ReservedBody(code, s) <= Bound(|s| + 1)
    decreases |s|, 4
  {
    hide ReservedList, ReservedMap, ReservedPair, Bound;
    match code
    case 0xc0 => ReservedListBounded(1, s);
    case 0xd0 => ReservedListBounded(4, s);
    case 0xc1 => ReservedMapBounded(1, s);
    case 0xd1 => ReservedMapBounded(4, s);
    case 0x00 => ReservedPairBounded(s); BoundAfter(|s|, 1);
    case _ =>
  }

  lemma {:induction false} ReservedPairBounded(s: bytes)
    ensures 18 * ReservedPair(s) <= Bound(|s|)
    decreases |s|, 1
  {
    hide Read, Reserved, Bound;
    match Read(s)
    case Ok(_, n) =>
      ReservedIfOk(s);
      ReservedBounded(s[n..]);
      BoundAfter(|s| - n, n);
    case Fail(_) => ReservedBounded(s);
  }

  lemma CountFits(w: width, s: bytes)
    requires ReadCount(w, s).Ok?
    ensures 18 * ReadCount(w, s).value + Bound(|s| - 2 * w) <= Bound(|s| + 1)
  {
    assert Pow256(1) == 0x100;
    hide Bound;
    BoundHeader(|s| - 2 * w, 2 * w + 1, ReadCount(w, s).value);
  }

  lemma {:induction false} ReservedListBounded(w: width, s: bytes)
    ensures 18 * ReservedList(w, s) <= Bound(|s| + 1)
    decreases |s|, 3
  {
    hide ReadCount, ReservedItems, Bound;
    if ReadCount(w, s).Ok? {
      CountFits(w, s);
      ReservedItemsBounded(s[2 * w..], ReadCount(w, s).value);
    }
  }

  lemma {:induction false} ReservedItemsBounded(s: bytes, count: nat)
    ensures 18 * ReservedItems(s, count) <= Bound(|s|)
    decreases |s|, 2, count
  {
    hide Read, Reserved, Bound;
    if count > 0 {
      match Read(s)
      case Ok(_, n) =>
        ReservedIfOk(s);
        ReservedItemsBounded(s[n..], count - 1);
        BoundAfter(|s| - n, n);
      case Fail(_) => ReservedBounded(s);
    }
  }

  lemma {:induction false} ReservedMapBounded(w: width, s: bytes)
    ensures 18 * ReservedMap(w, s) <= Bound(|s| + 1)
    decreases |s|, 3
  {
    hide ReadCount, ReservedEntries, Bound;
    if ReadCount(w, s).Ok? {
      CountFits(w, s);
      ReservedEntriesBounded(s[2 * w..], (ReadCount(w, s).value + 1) / 2);
    }
  }

  lemma {:induction false} ReservedEntriesBounded(s: bytes, pairs: nat)
    ensures 18 * ReservedEntries(s, pairs) <= Bound(|s|)
    decreases |s|, 2, pairs
  {
    hide Read, ReadEntry, ReservedPair, Bound;
    if pairs > 0 {
      if ReadEntry(s).Ok? {
        var n := ReadEntry(s).used;
        EntryIsPair(s);
        ReservedPairIfOk(s);
        ReservedEntriesBounded(s[n..], pairs - 1);
        BoundAfter(|s| - n, n);
      } else {
        ReservedPairBounded(s);
      }
    }
  }

  // ---- The bound is reached ----

  /** k list headers, one inside the other, each announcing as many elements as bytes follow it. */
  function Headers(k: nat): (s: bytes)
    ensures |s| == 9 * k
  {
    if k == 0 then [] else [0xd0] + (Be(4, 0) + Be(4, ToUint32(9 * (k - 1))) + Headers(k - 1))
  }

  /** Up to a term linear in the input they reserve all that the bound allows. */
  lemma {:induction false} HeadersReserve(k: nat)
    requires 9 * k < MAX_LENGTH
    ensures 18 * Reserved(Headers(k)) >= |Headers(k)| * |Headers(k)| - 9 * |Headers(k)|
  {
    hide Be, ReadCount, Reserved, Headers;
    if k > 0 {
      var n := 9 * (k - 1);
      HeadersReserve(k - 1);
      OneMoreHeader(k);
      NineMore(n);
    }
  }

  lemma NineMore(n: nat)
    ensures (n + 9) * (n + 9) - 9 * (n + 9) == n * n - 9 * n + 18 * n
  {
  }

  lemma OneMoreHeader(k: nat)
    requires 0 < k && 9 * k < MAX_LENGTH
    ensures var n := 9 * (k - 1); Reserved(Headers(k)) >= n + if n > 0 then Reserved(Headers(k - 1)) else 0
  {
    hide Be, ReadCount, Reserved;
    var n := 9 * (k - 1);
    var tail := Headers(k - 1);
    var body := Be(4, 0) + Be(4, n) + tail;
    ReadCountInverse(4, 0, n, tail);
    assert Headers(k) == [0xd0] + body;
    assert body[8..] == tail;
    ReservedHeader(body, n);
  }

  lemma ReservedHeader(body: bytes, count: nat)
    requires |body| >= 8 && ReadCount(4, body) == Ok(count, 8)
    ensures Reserved([0xd0] + body) >= count + if count > 0 then Reserved(body[8..]) else 0
  {
    hide ReadCount, Read;
    assert ([0xd0] + body)[1..] == body;
    assert Reserved([0xd0] + body) == ReservedBody(0xd0, body);
    assert ReservedBody(0xd0, body) == ReservedList(4, body);
    assert ReservedList(4, body) == count + ReservedItems(body[8..], count);
  }

  // ---- What an encoding reserves ----

  /** The items of all lists in v and the entries of all its maps. */
  function Slots(v: Value): nat
    decreases v, 1
  {
    match v
    case List(items) => |items| + SlotsOf(items)
    case Map(es) => |es| + SlotsOfEntries(es)
    case Described(d, x) => Slots(d) + Slots(x)
    case _ => 0
  }

  function SlotsOf(items: seq<Value>): nat
    decreases items, 0
  {
    if items == [] then 0 else Slots(items[0]) + SlotsOf(items[1..])
  }

  function SlotsOfEntries(es: seq<Entry>): nat
    decreases es, 0
  {
    if es == [] then 0 else SlotsOfEntry(es[0]) + SlotsOfEntries(es[1..])
  }

  function SlotsOfEntry(e: Entry): nat
    decreases e, 0
  {
    Slots(e.key) + Slots(e.val)
  }

  lemma ReservedConstructor(c: byte, x: bytes, rest: bytes)
    ensures Reserved([c] + x + rest) == ReservedBody(c, x + rest)
  {
    hide ReservedBody;
    assert ([c] + x + rest)[1..] == x + rest;
  }

  lemma ReservedScalar(v: Value, rest: bytes)
    requires Encodable(v) && Scalar(v)
    ensures Reserved(Encode(v) + rest) == 0
  {
    hide ScalarBody;
    ReservedConstructor(ScalarCode(v), ScalarBody(v), rest);
  }

  /** Reading an encoding reserves one slot for each item and each entry in it, at every depth, and no more. */
  lemma {:induction false} ReservedExactly(v: Value, rest: bytes)
    requires Sendable(v)
    ensures Reserved(Encode(v) + rest) == Slots(v)
    decreases v, 1
  {
    hide Reserved, ReservedBody, CollectionHeader;
    if v.Described? {
      var d, x := Encode(v.descriptor), Encode(v.value);
      ReservedConstructor(0x00, d + x, rest);
      AppendAssoc(d, x, rest);
      ReservedExactly(v.descriptor, x + rest);
      ReservedExactly(v.value, rest);
      RoundTrip(v.descriptor, x + rest);
      PairReserves(d, x + rest, Norm(v.descriptor));
    } else if v.List? {
      ListReserves(v.items, rest);
    } else if v.Map? {
      MapReserves(v.entries, rest);
    } else {
      ReservedScalar(v, rest);
    }
  }

  lemma PairReserves(d: bytes, x: bytes, v: Value)
    requires Read(d + x) == Ok(v, |d|)
    ensures ReservedBody(0x00, d + x) == ReservedPair(d + x) == Reserved(d + x) + Reserved(x)
  {
    hide Read, Reserved;
    assert (d + x)[|d|..] == x;
  }

  /** Reserving for a collection: the header's type code selects the width the header was written in. */
  lemma HeaderReserves(c8: byte, c32: byte, count: nat, body: bytes, rest: bytes) returns (w: width, s: bytes)
    requires count <= |body| && count < MAX_LENGTH
    ensures Reserved(CollectionHeader(c8, c32, count, |body|) + body + rest) == ReservedBody(if w == 1 then c8 else c32, s)
    ensures ReadCount(w, s) == Ok(count, 2 * w) && |s| >= 2 * w && s[2 * w..] == body + rest
  {
    hide Reserved, ReservedBody, ReadCount, Be;
    var small := count <= 255 && |body| + 1 <= 255;
    w := if small then 1 else 4;
    var size := if small then |body| + 1 else ToUint32(|body| + 4);
    var h, c := Be(w, size) + Be(w, count), if small then c8 else c32;
    if small { BeByte(size); BeByte(count); }
    s := h + (body + rest);
    ReadCountInverse(w, size, count, body + rest);
    assert CollectionHeader(c8, c32, count, |body|) == [c] + h;
    AppendAssoc([c] + h, body, rest);
    ReservedConstructor(c, h, body + rest);
    assert [c] + h + (body + rest) == [c] + h + body + rest;
    assert s[2 * w..] == body + rest;
  }

  lemma {:induction false} ListReserves(items: seq<Value>, rest: bytes)
    requires Sendable(List(items))
    ensures Reserved(EncodeList(items) + rest) == |items| + SlotsOf(items)
    decreases items, 1
  {
    hide Reserved, ReservedItems, EncodeItems, CollectionHeader, ReadCount;
    if items == [] {
      ReservedEmptyList(rest);
    } else {
      assert |items| < MAX_LENGTH;
      hide LengthsFit, KeysHashable;
      EncodeItemsLength(items);
      var w, s := HeaderReserves(0xc0, 0xd0, |items|, EncodeItems(items), rest);
      ReservedItemsExactly(items, rest);
    }
  }

  lemma ReservedEmptyList(rest: bytes)
    ensures Reserved([0x45] + rest) == 0
  {
    assert [0x45] == [0x45] + [];
    ReservedConstructor(0x45, [], rest);
  }

  lemma ItemsReserve(head: bytes, tail: bytes, v: Value, count: nat)
    requires Read(head + tail) == Ok(v, |head|)
    ensures ReservedItems(head + tail, count + 1) == Reserved(head + tail) + ReservedItems(tail, count)
  {
    hide Read, Reserved;
    assert (head + tail)[|head|..] == tail;
  }

  lemma {:induction false} ReservedItemsExactly(items: seq<Value>, rest: bytes)
    requires Sendable(List(items))
    ensures ReservedItems(EncodeItems(items) + rest, |items|) == SlotsOf(items)
    decreases items, 0
  {
    hide Read, Encode, Reserved;
    if items != [] {
      hide ReservedItems;
      var head, tail := Encode(items[0]), EncodeItems(items[1..]);
      AppendAssoc(head, tail, rest);
      RoundTrip(items[0], tail + rest);
      ReservedExactly(items[0], tail + rest);
      ReservedItemsExactly(items[1..], rest);
      ItemsReserve(head, tail + rest, Norm(items[0]), |items| - 1);
    }
  }

  lemma {:induction false} MapReserves(es: seq<Entry>, rest: bytes)
    requires Sendable(Map(es))
    ensures Reserved(Encode(Map(es)) + rest) == |es| + SlotsOfEntries(es)
    decreases es, 1
  {
    hide Reserved, ReservedEntries, EncodeEntries, CollectionHeader, ReadCount;
    EncodeEntriesLength(es);
    var w, s := HeaderReserves(0xc1, 0xd1, 2 * |es|, EncodeEntries(es), rest);
    ReservedEntriesExactly(es, rest);
  }

  lemma EntriesReserve(head: bytes, tail: bytes, e: Entry, pairs: nat)
    requires ReadEntry(head + tail) == Ok(e, |head|)
    ensures ReservedEntries(head + tail, pairs + 1) == ReservedPair(head + tail) + ReservedEntries(tail, pairs)
  {
    hide ReadEntry, ReservedPair;
    assert (head + tail)[|head|..] == tail;
  }

  lemma {:induction false} ReservedEntriesExactly(es: seq<Entry>, rest: bytes)
    requires Sendable(Map(es))
    ensures ReservedEntries(EncodeEntries(es) + rest, |es|) == SlotsOfEntries(es)
    decreases es, 0
  {
    hide Read, ReadEntry, EncodeEntry, LengthsFit, KeysHashable, Hashable, ReservedPair;
    if es != [] {
      hide ReservedEntries;
      SendableParts(es);
      var head, tail := EncodeEntry(es[0]), EncodeEntries(es[1..]);
      RoundTripEntry(es[0], tail + rest);
      AppendAssoc(head, tail, rest);
      ReservedEntryExactly(es[0], tail + rest);
      ReservedEntriesExactly(es[1..], rest);
      EntriesReserve(head, tail + rest, NormEntry(es[0]), |es| - 1);
    }
  }

  lemma {:induction false} ReservedEntryExactly(e: Entry, rest: bytes)
    requires Sendable(e.key) && Sendable(e.val)
    ensures ReservedPair(EncodeEntry(e) + rest) == SlotsOfEntry(e)
    decreases e, 0
  {
    hide Read, Encode, Reserved;
    var k, v := Encode(e.key), Encode(e.val);
    AppendAssoc(k, v, rest);
    RoundTrip(e.key, v + rest);
    ReservedExactly(e.key, v + rest);
    ReservedExactly(e.val, rest);
    PairReserves(k, v + rest, Norm(e.key));
  }
}
