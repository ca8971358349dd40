/**
 Which values come back whole from the wire, maps inside maps included, and what the order of writing
 a map can change.
 */
module AmqpMaps {
  import opened Bytes
  import opened AmqpTypes
  import opened AmqpCodec
  import opened AmqpCodecProofs
  import opened Wrappers

  /** Every map inside v is one a Go program can hold. */
  predicate IsGoValue(v: Value) {
    match v
    case List(items) => forall i | 0 <= i < |items| :: IsGoValue(items[i])
    case Map(es) => IsGoMap(es) && forall i | 0 <= i < |es| :: IsGoValue(es[i].val)
    case Described(d, x) => IsGoValue(d) && IsGoValue(x)
    case _ => true
  }

  /** No map inside v has a symbol key and a string key of one name. */
  predicate NoClash(v: Value) {
    match v
    case List(items) => forall i | 0 <= i < |items| :: NoClash(items[i])
    case Map(es) => KeysApart(es) && forall i | 0 <= i < |es| :: NoClash(es[i].val)
    case Described(d, x) => NoClash(d) && NoClash(x)
    case _ => true
  }

  // ---- What comes back whole ----

  /** v with its symbol keys turned into strings; no entry is moved or lost. */
  function Renamed(v: Value): Value
    decreases v, 1
  {
    match v
    case List(items) => List(RenamedItems(items))
    case Map(es) => Map(RenamedEntries(es))
    case Described(d, x) => Described(Renamed(d), Renamed(x))
    case _ => v
  }

  function RenamedItems(items: seq<Value>): (r: seq<Value>)
    ensures |r| == |items|
    ensures forall i | 0 <= i < |items| :: r[i] == Renamed(items[i])
    decreases items, 0
  {
    if items == [] then [] else [Renamed(items[0])] + RenamedItems(items[1..])
  }

  function RenamedEntry(e: Entry): Entry
    decreases e, 0
  {
    Entry(NormalizeKey(e.key), Renamed(e.val))
  }

  function RenamedEntries(es: seq<Entry>): (r: seq<Entry>)
    ensures |r| == |es|
    ensures forall i | 0 <= i < |es| :: r[i] == RenamedEntry(es[i])
    decreases es, 0
  {
    if es == [] then [] else [RenamedEntry(es[0])] + RenamedEntries(es[1..])
  }

  /** Nothing is lost at any depth exactly when no map at any depth has a clash. */
  lemma {:induction false} NormIsRenamed(v: Value)
    requires IsGoValue(v)
    ensures Norm(v) == Renamed(v) <==> NoClash(v)
    decreases v
  {
    match v
    case List(items) =>
      forall i | 0 <= i < |items| ensures Norm(items[i]) == Renamed(items[i]) <==> NoClash(items[i]) {
        NormIsRenamed(items[i]);
      }
      assert NormItems(items) == RenamedItems(items) <==>
             forall i | 0 <= i < |items| :: Norm(items[i]) == Renamed(items[i]);
    case Map(es) =>
      forall i | 0 <= i < |es| ensures Norm(es[i].val) == Renamed(es[i].val) <==> NoClash(es[i].val) {
        var Entry(_, x) := es[i];
        assert x < es[i];
        NormIsRenamed(x);
      }
      MapIsRenamed(es);
    case Described(d, x) => NormIsRenamed(d); NormIsRenamed(x);
    case _ =>
  }

  lemma EntriesAreRenamed(es: seq<Entry>)
    requires IsGoMap(es)
    ensures NormEntries(es) == RenamedEntries(es) <==>
            forall i | 0 <= i < |es| :: Norm(es[i].val) == Renamed(es[i].val)
  {
    hide Norm, NormalizeKey, Hashable, DistinctKeys, NormEntries, RenamedEntries, Renamed;
    var xs, ys := NormEntries(es), RenamedEntries(es);
    forall i | 0 <= i < |es| ensures xs[i] == ys[i] <==> Norm(es[i].val) == Renamed(es[i].val) {
      NormHashable(es[i].key);
    }
    assert xs == ys <==> forall i | 0 <= i < |es| :: xs[i] == ys[i];
  }

  /** A map has fewer entries after a clash. */
  lemma ClashShrinks(es: seq<Entry>)
    requires IsGoMap(es)
    ensures if KeysApart(es) then Norm(Map(es)) == Map(NormEntries(es))
            else |PutAll([], NormEntries(es))| < |es|
  {
    hide *;
    MapLosesNothing(es);
    WholeIfDistinct(es);
    FullIfDistinct(NormEntries(es));
  }

  lemma FullIfDistinct(xs: seq<Entry>)
    ensures |PutAll([], xs)| <= |xs|
    ensures |PutAll([], xs)| == |xs| ==> DistinctKeys(xs)
  {
    hide *;
    PutAllSize([], xs);
    NoKeys();
    assert [] + xs == xs;
  }

  lemma MapIsRenamed(es: seq<Entry>)
    requires IsGoMap(es)
    ensures Norm(Map(es)) == Renamed(Map(es)) <==>
            KeysApart(es) && forall i | 0 <= i < |es| :: Norm(es[i].val) == Renamed(es[i].val)
  {
    EntriesAreRenamed(es);
    ClashShrinks(es);
    MapForms(es);
    hide Norm, KeysApart, PutAll, NormEntries, RenamedEntries, Renamed;
    if !KeysApart(es) {
      assert Norm(Map(es)).entries != RenamedEntries(es);
    }
  }

  lemma MapForms(es: seq<Entry>)
    ensures Norm(Map(es)) == Map(PutAll([], NormEntries(es)))
    ensures Renamed(Map(es)) == Map(RenamedEntries(es))
  {
  }

  /** A Go value is read back with all its entries, in the order written, exactly when no map inside it has a clash. */
  lemma ComesBackWhole(v: Value, rest: bytes)
    requires Encodable(v) && LengthsFit(v) && IsGoValue(v)
    ensures Read(Encode(v) + rest) == Ok(Renamed(v), |Encode(v)|) <==> NoClash(v)
  {
    GoKeysHashable(v);
    RoundTrip(v, rest);
    NormIsRenamed(v);
  }

  lemma {:induction false} GoKeysHashable(v: Value)
    requires IsGoValue(v)
    ensures KeysHashable(v)
    decreases v
  {
    match v
    case List(items) =>
      forall i | 0 <= i < |items| ensures KeysHashable(items[i]) { GoKeysHashable(items[i]); }
    case Map(es) =>
      forall i | 0 <= i < |es| ensures KeysHashable(es[i].val) {
        var Entry(_, x) := es[i];
        assert x < es[i];
        GoKeysHashable(x);
      }
    case Described(d, x) => GoKeysHashable(d); GoKeysHashable(x);
    case _ =>
  }

  /** The clash may be in an inner map: the outer one has a single key, and an entry is lost all the same. */
  lemma InnerMapLosesEntry(x: Value, y: Value, rest: bytes)
    requires Sendable(x) && Sendable(y)
    ensures var v := Map([Entry(Str([98]), Map([Entry(Sym([97]), x), Entry(Str([97]), y)]))]);
            Sendable(v) && Read(Encode(v) + rest)
                        == Ok(Map([Entry(Str([98]), Map([Entry(Str([97]), Norm(y))]))]), |Encode(v)|)
  {
    var m := Map([Entry(Sym([97]), x), Entry(Str([97]), y)]);
    var e := Entry(Str([98]), m);
    SymbolAndString(x, y, rest);
    assert Sendable(Map([e])) by { assert Sendable(e.key) && Sendable(m); }
    hide Norm, PutAll, Read, Encode, Encodable, LengthsFit, KeysHashable;
    RoundTrip(Map([e]), rest);
    MapForms([e]);
    NormHashable(e.key);
    assert NormEntries([e]) == [NormEntry(e)];
    PutOne(NormEntry(e));
  }

  lemma SymbolAndString(x: Value, y: Value, rest: bytes)
    requires Sendable(x) && Sendable(y)
    ensures var m := Map([Entry(Sym([97]), x), Entry(Str([97]), y)]);
            Sendable(m) && Norm(m) == Map([Entry(Str([97]), Norm(y))])
  {
    hide Norm, Read, Encode, Encodable, LengthsFit, KeysHashable;
    SymbolMeetsString(x, y, rest);
    RoundTrip(Map([Entry(Sym([97]), x), Entry(Str([97]), y)]), rest);
  }

  lemma PutOne(e: Entry)
    ensures PutAll([], [e]) == [e]
  {
    assert [e][1..] == [];
  }

  lemma {:induction false} PutAt(m: seq<Entry>, e: Entry)
    requires DistinctKeys(m)
    ensures DistinctKeys(Put(m, e))
    ensures forall i | 0 <= i < |Put(m, e)| :: Put(m, e)[i] == e || (i < |m| && Put(m, e)[i] == m[i])
  {
    PutSize(m, e);
    if m != [] && m[0].key != e.key {
      PutAt(m[1..], e);
      var rest := Put(m[1..], e);
      assert forall i | 0 <= i < |rest| :: rest[i].key != m[0].key;
    }
  }

  // ---- The order of writing ----

  function Keys(es: seq<Entry>): set<Value> {
    set e | e in es :: e.key
  }

  /** Equal up to the order of the entries, in every map at any depth. */
  predicate Same(v: Value, w: Value)
    decreases v
  {
    match v
    case List(items) =>
      w.List? && |items| == |w.items| && forall i | 0 <= i < |items| :: Same(items[i], w.items[i])
    case Map(es) =>
      && w.Map?
      && Keys(es) == Keys(w.entries)
      && forall i, j | 0 <= i < |es| && 0 <= j < |w.entries| && es[i].key == w.entries[j].key ::
           Same(es[i].val, w.entries[j].val)
    case Described(d, x) => w.Described? && Same(d, w.descriptor) && Same(x, w.value)
    case _ => v == w
  }

  lemma KeyOf(es: seq<Entry>, fs: seq<Entry>, i: nat) returns (j: nat)
    requires Keys(es) == Keys(fs) && i < |es|
    ensures j < |fs| && fs[j].key == es[i].key
  {
    assert es[i].key in Keys(fs);
    j :| j < |fs| && fs[j].key == es[i].key;
  }

  lemma {:induction false} RenamedSame(v: Value, w: Value)
    requires IsGoValue(v) && IsGoValue(w) && NoClash(v) && NoClash(w) && Same(v, w)
    ensures Same(Renamed(v), Renamed(w))
    decreases v
  {
    match v
    case List(items) =>
      forall i | 0 <= i < |items| ensures Same(Renamed(items[i]), Renamed(w.items[i])) {
        RenamedSame(items[i], w.items[i]);
      }
    case Map(es) =>
      forall i, j | 0 <= i < |es| && 0 <= j < |w.entries| && es[i].key == w.entries[j].key
        ensures Same(Renamed(es[i].val), Renamed(w.entries[j].val))
      {
        var Entry(_, x) := es[i];
        assert x < es[i];
        RenamedSame(x, w.entries[j].val);
      }
      RenamedMapSame(es, w.entries);
    case Described(d, x) => RenamedSame(d, w.descriptor); RenamedSame(x, w.value);
    case _ =>
  }

  lemma RenamedKeys(es: seq<Entry>, fs: seq<Entry>)
    requires Keys(es) <= Keys(fs)
    ensures Keys(RenamedEntries(es)) <= Keys(RenamedEntries(fs))
  {
    hide NormalizeKey, Renamed;
    var xs, ys := RenamedEntries(es), RenamedEntries(fs);
    forall x | x in xs ensures x.key in Keys(ys) {
      var i :| 0 <= i < |es| && xs[i] == x;
      assert es[i].key in Keys(fs);
      var j :| 0 <= j < |fs| && fs[j].key == es[i].key;
      assert ys[j] in ys && ys[j].key == x.key;
    }
  }

  lemma RenamedMapSame(es: seq<Entry>, fs: seq<Entry>)
    requires IsGoMap(es) && IsGoMap(fs) && Keys(es) == Keys(fs)
    requires NoClash(Map(es)) && NoClash(Map(fs))
    requires forall i, j | 0 <= i < |es| && 0 <= j < |fs| && es[i].key == fs[j].key ::
               Same(Renamed(es[i].val), Renamed(fs[j].val))
    ensures Same(Renamed(Map(es)), Renamed(Map(fs)))
  {
    hide Same, Renamed, IsGoMap, Keys;
    var xs, ys := RenamedEntries(es), RenamedEntries(fs);
    RenamedKeys(es, fs);
    RenamedKeys(fs, es);
    forall i, j | 0 <= i < |es| && 0 <= j < |fs| && xs[i].key == ys[j].key ensures Same(xs[i].val, ys[j].val) {
      var k := KeyOf(es, fs, i);
      assert !Clash(fs[k].key, fs[j].key) && !Clash(fs[j].key, fs[k].key);
      assert es[i].key == fs[j].key;
    }
    SameMaps(xs, ys);
    MapForms(es);
    MapForms(fs);
  }

  lemma SameMaps(xs: seq<Entry>, ys: seq<Entry>)
    requires Keys(xs) == Keys(ys)
    requires forall i, j | 0 <= i < |xs| && 0 <= j < |ys| && xs[i].key == ys[j].key :: Same(xs[i].val, ys[j].val)
    ensures Same(Map(xs), Map(ys))
  {
  }

  lemma {:induction false} NoClashSame(v: Value, w: Value)
    requires Same(v, w) && NoClash(v)
    ensures NoClash(w)
    decreases v
  {
    match v
    case List(items) =>
      forall i | 0 <= i < |items| ensures NoClash(w.items[i]) { NoClashSame(items[i], w.items[i]); }
    case Map(es) =>
      var fs := w.entries;
      forall j | 0 <= j < |fs| ensures NoClash(fs[j].val) {
        var i := KeyOf(fs, es, j);
        var Entry(_, x) := es[i];
        assert x < es[i];
        NoClashSame(x, fs[j].val);
      }
      forall j, k | 0 <= j < |fs| && 0 <= k < |fs| ensures !Clash(fs[j].key, fs[k].key) {
        var i := KeyOf(fs, es, j);
        var l := KeyOf(fs, es, k);
        assert !Clash(es[i].key, es[l].key);
      }
    case Described(d, x) => NoClashSame(d, w.descriptor); NoClashSame(x, w.value);
    case _ =>
  }

  /**
   The runtime may range over each map in any order, maps inside maps included: without a clash, two
   writes of one value are read back as the same value.
   */
  lemma WriteOrderIrrelevant(v: Value, w: Value, rest: bytes, rest': bytes)
    requires Encodable(v) && LengthsFit(v) && IsGoValue(v)
    requires Encodable(w) && LengthsFit(w) && IsGoValue(w)
    requires Same(v, w) && NoClash(v)
    ensures Read(Encode(v) + rest).Ok? && Read(Encode(w) + rest').Ok?
    ensures Same(Read(Encode(v) + rest).value, Read(Encode(w) + rest').value)
  {
    NoClashSame(v, w);
    ComesBackWhole(v, rest);
    ComesBackWhole(w, rest');
    RenamedSame(v, w);
  }

  lemma {:induction false} SameReflexive(v: Value)
    requires IsGoValue(v)
    ensures Same(v, v)
    decreases v
  {
    match v
    case List(items) => forall i | 0 <= i < |items| ensures Same(items[i], items[i]) { SameReflexive(items[i]); }
    case Map(es) =>
      forall i | 0 <= i < |es| ensures Same(es[i].val, es[i].val) {
        var Entry(_, x) := es[i];
        assert x < es[i];
        SameReflexive(x);
      }
    case Described(d, x) => SameReflexive(d); SameReflexive(x);
    case _ =>
  }

  /** Another order of one map's entries is the same value. */
  lemma PermutedSame(es: seq<Entry>, fs: seq<Entry>)
    requires IsGoValue(Map(es)) && multiset(es) == multiset(fs)
    ensures Same(Map(es), Map(fs))
  {
    assert forall e :: e in multiset(es) <==> e in multiset(fs);
    forall i, j | 0 <= i < |es| && 0 <= j < |fs| && es[i].key == fs[j].key ensures Same(es[i].val, fs[j].val) {
      assert fs[j] in multiset(es);
      SameReflexive(es[i].val);
    }
    forall e ensures e in es <==> e in fs {
      assert e in multiset(es) <==> e in multiset(fs);
    }
    assert Keys(es) == Keys(fs);
  }

  lemma {:induction false} SameSymmetric(v: Value, w: Value)
    requires Same(v, w)
    ensures Same(w, v)
    decreases v
  {
    match v
    case List(items) =>
      forall i | 0 <= i < |items| ensures Same(w.items[i], items[i]) { SameSymmetric(items[i], w.items[i]); }
    case Map(es) =>
      forall i, j | 0 <= i < |es| && 0 <= j < |w.entries| && es[i].key == w.entries[j].key
        ensures Same(w.entries[j].val, es[i].val)
      {
        var Entry(_, x) := es[i];
        assert x < es[i];
        SameSymmetric(x, w.entries[j].val);
      }
    case Described(d, x) => SameSymmetric(d, w.descriptor); SameSymmetric(x, w.value);
    case _ =>
  }

  lemma {:induction false} SameTransitive(u: Value, v: Value, w: Value)
    requires Same(u, v) && Same(v, w)
    ensures Same(u, w)
    decreases u
  {
    match u
    case List(items) =>
      forall i | 0 <= i < |items| ensures Same(items[i], w.items[i]) {
        SameTransitive(items[i], v.items[i], w.items[i]);
      }
    case Map(es) =>
      forall i, k | 0 <= i < |es| && 0 <= k < |w.entries| && es[i].key == w.entries[k].key
        ensures Same(es[i].val, w.entries[k].val)
      {
        var j := KeyOf(es, v.entries, i);
        var Entry(_, x) := es[i];
        assert x < es[i];
        SameTransitive(x, v.entries[j].val, w.entries[k].val);
      }
    case Described(d, x) =>
      SameTransitive(d, v.descriptor, w.descriptor);
      SameTransitive(x, v.value, w.value);
    case _ =>
  }

  lemma {:induction false} KeysCount(es: seq<Entry>)
    requires DistinctKeys(es)
    ensures |Keys(es)| == |es|
  {
    if es != [] {
      KeysCount(es[1..]);
      assert es == [es[0]] + es[1..];
      assert Keys(es) == {es[0].key} + Keys(es[1..]);
      assert es[0].key !in Keys(es[1..]);
    }
  }

  /** What can be written can be written in any order. */
  lemma {:induction false} SameFits(v: Value, w: Value)
    requires IsGoValue(v) && IsGoValue(w) && Same(v, w)
    ensures Encodable(v) ==> Encodable(w)
    ensures LengthsFit(v) ==> LengthsFit(w)
    decreases v
  {
    match v
    case List(items) =>
      forall i | 0 <= i < |items|
        ensures Encodable(items[i]) ==> Encodable(w.items[i])
        ensures LengthsFit(items[i]) ==> LengthsFit(w.items[i])
      {
        SameFits(items[i], w.items[i]);
      }
    case Map(es) =>
      var fs := w.entries;
      KeysCount(es);
      KeysCount(fs);
      forall j | 0 <= j < |fs|
        ensures Encodable(v) ==> Encodable(fs[j].key) && Encodable(fs[j].val)
        ensures LengthsFit(v) ==> LengthsFit(fs[j].key) && LengthsFit(fs[j].val)
      {
        var i := KeyOf(fs, es, j);
        var Entry(_, x) := es[i];
        assert x < es[i];
        SameFits(x, fs[j].val);
      }
    case Described(d, x) => SameFits(d, w.descriptor); SameFits(x, w.value);
    case _ =>
  }

  /** What a map holds under a key. */
  function Lookup(m: seq<Entry>, k: Value): Option<Value> {
    if m == [] then None else if m[0].key == k then Some(m[0].val) else Lookup(m[1..], k)
  }

  lemma {:induction false} LookupFinds(m: seq<Entry>, k: Value)
    requires DistinctKeys(m)
    ensures forall e | e in m && e.key == k :: Lookup(m, k) == Some(e.val)
    ensures (forall e | e in m :: e.key != k) ==> Lookup(m, k) == None
  {
    if m != [] {
      LookupFinds(m[1..], k);
      forall e | e in m && e.key == k ensures Lookup(m, k) == Some(e.val) {
        var i :| 0 <= i < |m| && m[i] == e;
        if i > 0 {
          assert m[1..][i - 1] == e && m[0].key != k;
        }
      }
    }
  }

  /** No lookup tells two maps that are the same apart. */
  lemma SameLookups(m: seq<Entry>, n: seq<Entry>, k: Value)
    requires DistinctKeys(m) && DistinctKeys(n) && Same(Map(m), Map(n))
    ensures Lookup(m, k).Some? <==> Lookup(n, k).Some?
    ensures Lookup(m, k).Some? ==> Same(Lookup(m, k).value, Lookup(n, k).value)
  {
    LookupFinds(m, k);
    LookupFinds(n, k);
    hide Lookup;
    assert (exists e :: e in m && e.key == k) <==> k in Keys(m);
    assert (exists f :: f in n && f.key == k) <==> k in Keys(n);
    if e :| e in m && e.key == k {
      var f :| f in n && f.key == k;
      var i :| 0 <= i < |m| && m[i] == e;
      var j :| 0 <= j < |n| && n[j] == f;
    }
  }
}
