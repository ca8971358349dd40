/**
 The AMQP 1.0 value codec (section 1.6 of the standard): what the encoder
 writes, what the decoder reads back, and the classes that do both.
 */
module AmqpTypes {
  import opened Bytes

  type uuid = s: bytes | |s| == 16 witness seq(16, _ => 0)

  /** A Go value the codec handles. A map is its entries, in the order the runtime ranges over them. */
  datatype Value =
    | Null
    | Bool(b: bool)
    | Ubyte(u8: byte)
    | Ushort(u16: uint16)
    | Uint(u32: uint32)
    | Ulong(u64: uint64)
    | Byte(i8: int8)
    | Short(i16: int16)
    | Int(i32: int32)
    | Long(i64: int64)
    | Timestamp(ms: int64)
    | Uuid(id: uuid)
    | Bin(raw: bytes)
    | Str(text: bytes)
    | Sym(name: bytes)
    | List(items: seq<Value>)
    | Map(entries: seq<Entry>)
    | Described(descriptor: Value, value: Value)

  datatype Entry = Entry(key: Value, val: Value)

  /** The encoder panics on every other type. */
  predicate Encodable(v: Value) {
    match v
    case Byte(_) => false
    case Short(_) => false
    case List(items) => forall i | 0 <= i < |items| :: Encodable(items[i])
    case Map(es) => forall i | 0 <= i < |es| :: Encodable(es[i].key) && Encodable(es[i].val)
    case Described(d, x) => Encodable(d) && Encodable(x)
    case _ => true
  }

  /** Go can use v as a map key: no slice and no map anywhere inside. */
  predicate Hashable(v: Value) {
    match v
    case Bin(_) => false
    case List(_) => false
    case Map(_) => false
    case Described(d, x) => Hashable(d) && Hashable(x)
    case _ => true
  }

  function NormalizeKey(k: Value): Value {
    match k
    case Sym(s) => Str(s)
    case _ => k
  }

  /** A map insertion: an equal key keeps its place and gets the new value. */
  function Put(m: seq<Entry>, e: Entry): seq<Entry> {
    if m == [] then [e]
    else if m[0].key == e.key then [e] + m[1..]
    else [m[0]] + Put(m[1..], e)
  }

  function PutAll(m: seq<Entry>, es: seq<Entry>): seq<Entry>
    decreases es
  {
    if es == [] then m else PutAll(Put(m, es[0]), es[1..])
  }

  /** The value the peer ends up with: the same, with the entries of every map inserted under normalised keys. */
  function Norm(v: Value): Value
    decreases v, 1
  {
    match v
    case List(items) => List(NormItems(items))
    case Map(es) => Map(PutAll([], NormEntries(es)))
    case Described(d, x) => Described(Norm(d), Norm(x))
    case _ => v
  }

  function NormItems(items: seq<Value>): (r: seq<Value>)
    ensures |r| == |items|
    ensures forall i | 0 <= i < |items| :: r[i] == Norm(items[i])
    decreases items, 0
  {
    if items == [] then [] else [Norm(items[0])] + NormItems(items[1..])
  }

  function NormEntry(e: Entry): Entry
    decreases e, 0
  {
    Entry(NormalizeKey(Norm(e.key)), Norm(e.val))
  }

  function NormEntries(es: seq<Entry>): (r: seq<Entry>)
    ensures |r| == |es|
    ensures forall i | 0 <= i < |es| :: r[i] == NormEntry(es[i])
    decreases es, 0
  {
    if es == [] then [] else [NormEntry(es[0])] + NormEntries(es[1..])
  }

  /** The values in v, itself included, and the bytes of its strings, symbols and binaries. */
  function Weight(v: Value): nat
    decreases v, 1
  {
    match v
    case List(items) => 1 + WeightOf(items)
    case Map(es) => 1 + WeightOfEntries(es)
    case Described(d, x) => 1 + Weight(d) + Weight(x)
    case Str(s) => 1 + |s|
    case Sym(s) => 1 + |s|
    case Bin(s) => 1 + |s|
    case _ => 1
  }

  function WeightOf(items: seq<Value>): nat
    decreases items, 0
  {
    if items == [] then 0 else Weight(items[0]) + WeightOf(items[1..])
  }

  function WeightOfEntries(es: seq<Entry>): nat
    decreases es, 0
  {
    if es == [] then 0 else WeightOfEntry(es[0]) + WeightOfEntries(es[1..])
  }

  function WeightOfEntry(e: Entry): nat
    decreases e, 0
  {
    Weight(e.key) + Weight(e.val)
  }
}

module AmqpCodec {
  import opened Bytes
  import opened AmqpTypes

  // ---- What the encoder writes ----

  /** A string, symbol or binary after its length: in one byte when it fits, else in four. */
  function Sized(raw: bytes): bytes {
    if |raw| <= 255 then [|raw|] + raw else Be(4, ToUint32(|raw|)) + raw
  }

  /** A list or map header: sizes count the bytes after the size field. */
  function CollectionHeader(code8: byte, code32: byte, count: nat, bodyLen: nat): bytes {
    if count <= 255 && bodyLen + 1 <= 255 then [code8] + [bodyLen + 1, count]
    else [code32] + (Be(4, ToUint32(bodyLen + 4)) + Be(4, ToUint32(count)))
  }

  function Encode(v: Value): (s: bytes)
    requires Encodable(v)
    ensures |s| >= 1
    decreases v, 1
  {
    match v
    case Described(d, x) => [0x00] + (Encode(d) + Encode(x))
    case List(items) => EncodeList(items)
    case Map(es) => CollectionHeader(0xc1, 0xd1, 2 * |es|, |EncodeEntries(es)|) + EncodeEntries(es)
    case _ => [ScalarCode(v)] + ScalarBody(v)
  }

  predicate Scalar(v: Value) {
    !v.Described? && !v.List? && !v.Map?
  }

  /** The type code a scalar is written with. */
  function ScalarCode(v: Value): byte
    requires Encodable(v) && Scalar(v)
  {
    match v
    case Null => 0x40
    case Bool(b) => if b then 0x41 else 0x42
    case Ubyte(_) => 0x50
    case Ushort(_) => 0x60
    case Uint(_) => 0x70
    case Ulong(_) => 0x80
    case Int(_) => 0x71
    case Long(_) => 0x81
    case Timestamp(_) => 0x83
    case Uuid(_) => 0x98
    case Str(s) => if |s| <= 255 then 0xa1 else 0xb1
    case Sym(s) => if |s| <= 255 then 0xa3 else 0xb3
    case Bin(s) => if |s| <= 255 then 0xa0 else 0xb0
  }

  function ScalarBody(v: Value): bytes
    requires Encodable(v) && Scalar(v)
  {
    match v
    case Null => []
    case Bool(_) => []
    case Ubyte(n) => [n]
    case Ushort(n) => Be(2, n)
    case Uint(n) => Be(4, n)
    case Ulong(n) => Be(8, n)
    case Int(n) => Be(4, ToUint32(n))
    case Long(n) => Be(8, ToUint64(n))
    case Timestamp(ms) => Be(8, ToUint64(ms))
    case Uuid(id) => id
    case Str(s) => Sized(s)
    case Sym(s) => Sized(s)
    case Bin(s) => Sized(s)
  }

  function EncodeList(items: seq<Value>): (s: bytes)
    requires forall i | 0 <= i < |items| :: Encodable(items[i])
    ensures |s| >= 1
    decreases items, 1
  {
    if items == [] then [0x45]
    else CollectionHeader(0xc0, 0xd0, |items|, |EncodeItems(items)|) + EncodeItems(items)
  }

  function EncodeItems(items: seq<Value>): bytes
    requires forall i | 0 <= i < |items| :: Encodable(items[i])
    decreases items, 0
  {
    if items == [] then [] else Encode(items[0]) + EncodeItems(items[1..])
  }

  function EncodeEntries(es: seq<Entry>): bytes
    requires forall i | 0 <= i < |es| :: Encodable(es[i].key) && Encodable(es[i].val)
    decreases es, 0
  {
    if es == [] then [] else EncodeEntry(es[0]) + EncodeEntries(es[1..])
  }

  function EncodeEntry(e: Entry): bytes
    requires Encodable(e.key) && Encodable(e.val)
    decreases e, 0
  {
    Encode(e.key) + Encode(e.val)
  }

  // ---- What the decoder reads ----

  datatype DecodeError =
    | EndOfBuffer
    | CollectionTooLarge
    | UnsupportedCode(code: byte)
    | UnhashableKey  // the runtime panic of a map insertion

  /** A value read from the front of the input and the number of bytes it took. */
  datatype Parsed<+T> = Ok(value: T, used: nat) | Fail(error: DecodeError) {
    /** The same result, had n more bytes been read first. */
    function After(n: nat): Parsed<T> {
      if Ok? then Ok(value, used + n) else this
    }
  }

  function Read(s: bytes): (r: Parsed<Value>)
    ensures r.Ok? ==> 1 <= r.used <= |s|
    decreases |s|, 0
  {
    if s == [] then Fail(EndOfBuffer)
    else
      ReadBody(s[0], s[1..]).After(1)
  }

  function ReadBody(code: byte, s: bytes): (r: Parsed<Value>)
    ensures r.Ok? ==> r.used <= |s|
    decreases |s|, 3
  {
    match code
    case 0xc0 => ReadList(1, s)
    case 0xd0 => ReadList(4, s)
    case 0xc1 => ReadMap(1, s)
    case 0xd1 => ReadMap(4, s)
    case 0x00 => ReadDescribed(s)
    case _ => ReadScalar(code, s)
  }

  /** What follows a scalar's type code: a fixed number of bytes, or a length of the given width and that many bytes. */
  datatype Layout = Fixed(bytes: nat) | Variable(w: width) | Unsupported

  function LayoutOf(code: byte): Layout {
    match code
    case 0x40 => Fixed(0)
    case 0x41 => Fixed(0)
    case 0x42 => Fixed(0)
    case 0x43 => Fixed(0)
    case 0x44 => Fixed(0)
    case 0x45 => Fixed(0)
    case 0x50 => Fixed(1)
    case 0x51 => Fixed(1)
    case 0x52 => Fixed(1)
    case 0x53 => Fixed(1)
    case 0x54 => Fixed(1)
    case 0x55 => Fixed(1)
    case 0x56 => Fixed(1)
    case 0x60 => Fixed(2)
    case 0x61 => Fixed(2)
    case 0x70 => Fixed(4)
    case 0x71 => Fixed(4)
    case 0x72 => Fixed(4)
    case 0x80 => Fixed(8)
    case 0x81 => Fixed(8)
    case 0x82 => Fixed(8)
    case 0x83 => Fixed(8)
    case 0x98 => Fixed(16)
    case 0xa0 => Variable(1)
    case 0xa1 => Variable(1)
    case 0xa3 => Variable(1)
    case 0xb0 => Variable(4)
    case 0xb1 => Variable(4)
    case 0xb3 => Variable(4)
    case _ => Unsupported
  }

  function FixedValue(code: byte, raw: bytes): Value
    requires LayoutOf(code) == Fixed(|raw|)
  {
    var n := FromBe(raw);
    assert Pow256(1) == 0x100 && Pow256(2) == 0x1_0000 && Pow256(4) == 0x1_0000_0000;
    assert Pow256(8) == 0x1_0000_0000_0000_0000;
    match code
    case 0x40 => Null
    case 0x41 => Bool(true)
    case 0x42 => Bool(false)
    case 0x43 => Uint(0)
    case 0x44 => Ulong(0)
    case 0x45 => List([])
    case 0x50 => Ubyte(n)
    case 0x51 => Byte(Signed8(n))
    case 0x52 => Uint(n)
    case 0x53 => Ulong(n)
    case 0x54 => Int(Signed8(n))
    case 0x55 => Long(Signed8(n))
    case 0x56 => Bool(n != 0)
    case 0x60 => Ushort(n)
    case 0x61 => Short(Signed16(n))
    case 0x70 => Uint(n)
    case 0x71 => Int(Signed32(n))
    case 0x72 => Uint(n)   // float: the raw bits
    case 0x80 => Ulong(n)
    case 0x81 => Long(Signed64(n))
    case 0x82 => Ulong(n)  // double: the raw bits
    case 0x83 => Timestamp(Signed64(n))
    case 0x98 => Uuid(raw)
  }

  function VariableValue(code: byte, raw: bytes): Value
    requires LayoutOf(code).Variable?
  {
    match code
    case 0xa0 => Bin(raw)
    case 0xb0 => Bin(raw)
    case 0xa1 => Str(raw)
    case 0xb1 => Str(raw)
    case 0xa3 => Sym(raw)
    case 0xb3 => Sym(raw)
  }

  function ReadScalar(code: byte, s: bytes): (r: Parsed<Value>)
    ensures r.Ok? ==> r.used <= |s|
  {
    match LayoutOf(code)
    case Fixed(n) => if |s| < n then Fail(EndOfBuffer) else Ok(FixedValue(code, s[..n]), n)
    case Variable(w) =>
      (match ReadRaw(w, s)
       case Ok(raw, n) => Ok(VariableValue(code, raw), n)
       case Fail(e) => Fail(e))
    case Unsupported => Fail(UnsupportedCode(code))
  }

  type width = w: int | w == 1 || w == 4 witness 1

  function SizeAt(w: width, s: bytes): (n: nat)
    requires |s| >= w
    ensures n < 0x1_0000_0000
  {
    assert Pow256(1) == 0x100 && Pow256(4) == 0x1_0000_0000;
    FromBe(s[..w])
  }

  function ReadRaw(w: width, s: bytes): (r: Parsed<bytes>)
    ensures r.Ok? ==> r.used <= |s|
  {
    if |s| < w || |s| < w + SizeAt(w, s) then Fail(EndOfBuffer)
    else Ok(s[w..w + SizeAt(w, s)], w + SizeAt(w, s))
  }

  function ReadDescribed(s: bytes): (r: Parsed<Value>)
    ensures r.Ok? ==> r.used <= |s|
    decreases |s|, 1
  {
    match Read(s)
    case Fail(e) => Fail(e)
    case Ok(d, n) =>
      match Read(s[n..])
      case Fail(e) => Fail(e)
      case Ok(x, m) => Ok(Described(d, x), n + m)
  }

  /** The element count, after the size that is read and ignored. */
  function ReadCount(w: width, s: bytes): (r: Parsed<nat>)
    ensures r.Ok? ==> r.used == 2 * w <= |s| && r.value <= |s| - 2 * w
  {
    if |s| < 2 * w then Fail(EndOfBuffer)
    else if SizeAt(w, s[w..]) > |s| - 2 * w then Fail(CollectionTooLarge)
    else Ok(SizeAt(w, s[w..]), 2 * w)
  }

  function ReadList(w: width, s: bytes): (r: Parsed<Value>)
    ensures r.Ok? ==> r.used <= |s|
    decreases |s|, 2
  {
    match ReadCount(w, s)
    case Fail(e) => Fail(e)
    case Ok(count, h) =>
      match ReadItems(s[h..], count).After(h)
      case Fail(e) => Fail(e)
      case Ok(items, n) => Ok(List(items), n)
  }

  function ReadItems(s: bytes, count: nat): (r: Parsed<seq<Value>>)
    ensures r.Ok? ==> count <= r.used <= |s| && |r.value| == count
    decreases |s|, 1, count
  {
    if count == 0 then Ok([], 0)
    else
      match Read(s)
      case Fail(e) => Fail(e)
      case Ok(v, n) =>
        match ReadItems(s[n..], count - 1)
        case Fail(e) => Fail(e)
        case Ok(vs, m) => Ok([v] + vs, n + m)
  }

  /** Elements come in pairs; an odd count still reads the value of its last key. */
  function ReadMap(w: width, s: bytes): (r: Parsed<Value>)
    ensures r.Ok? ==> r.used <= |s|
    decreases |s|, 2
  {
    match ReadCount(w, s)
    case Fail(e) => Fail(e)
    case Ok(count, h) =>
      match ReadEntries(s[h..], (count + 1) / 2, []).After(h)
      case Fail(e) => Fail(e)
      case Ok(es, n) => Ok(Map(es), n)
  }

  function ReadEntries(s: bytes, pairs: nat, m: seq<Entry>): (r: Parsed<seq<Entry>>)
    ensures r.Ok? ==> 2 * pairs <= r.used <= |s|
    decreases |s|, 2, pairs
  {
    if pairs == 0 then Ok(m, 0)
    else
      match ReadEntry(s)
      case Fail(e) => Fail(e)
      case Ok(e, n) => ReadEntries(s[n..], pairs - 1, Put(m, e)).After(n)
  }

  /** One key, normalised, and its value: both are read before the insertion can panic. */
  function ReadEntry(s: bytes): (r: Parsed<Entry>)
    ensures r.Ok? ==> 2 <= r.used <= |s|
    decreases |s|, 1
  {
    match Read(s)
    case Fail(e) => Fail(e)
    case Ok(k, n) => Paired(k, Read(s[n..]).After(n))
  }

  function Paired(k: Value, v: Parsed<Value>): Parsed<Entry> {
    match v
    case Fail(e) => Fail(e)
    case Ok(x, n) => if Hashable(k) then Ok(Entry(NormalizeKey(k), x), n) else Fail(UnhashableKey)
  }
}
