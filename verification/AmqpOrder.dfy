/** Exactly when the order in which the runtime ranges over the maps of a value can be seen by its reader. */
module AmqpOrder {
  import opened Bytes
  import opened AmqpTypes
  import opened AmqpCodec
  import opened AmqpCodecProofs
  import opened AmqpMaps

  /** Where a symbol key has the name of a string key, both hold values that are read back as the same. */
  predicate Orderless(v: Value) {
    match v
    case List(items) => forall i | 0 <= i < |items| :: Orderless(items[i])
    case Map(es) =>
      && (forall i, j | 0 <= i < |es| && 0 <= j < |es| && Clash(es[i].key, es[j].key) ::
            Same(Norm(es[i].val), Norm(es[j].val)))
      && forall i | 0 <= i < |es| :: Orderless(es[i].val)
    case Described(d, x) => Orderless(d) && Orderless(x)
    case _ => true
  }

  /** Whatever the order of the entries, in every map at any depth, the same value arrives. */
  ghost predicate SameInAnyOrder(v: Value) {
    forall w | IsGoValue(w) && Same(v, w) :: Same(Norm(v), Norm(w))
  }

  // ---- What a map becomes ----

  lemma {:induction false} PutAllKeys(m: seq<Entry>, es: seq<Entry>)
    ensures Keys(PutAll(m, es)) == Keys(m) + Keys(es)
    ensures forall e | e in PutAll(m, es) :: e in m || e in es
    decreases |es|
  {
    if es == [] {
      assert Keys(m) + Keys([]) == Keys(m);
    } else {
      PutKeys(m, es[0]);
      PutAllKeys(Put(m, es[0]), es[1..]);
      assert es == [es[0]] + es[1..];
      assert Keys(es) == {es[0].key} + Keys(es[1..]);
    }
  }

  lemma {:induction false} PutKeys(m: seq<Entry>, e: Entry)
    ensures Keys(Put(m, e)) == Keys(m) + {e.key} && e in Put(m, e)
    ensures forall f | f in Put(m, e) :: f == e || f in m
  {
    if m == [] {
      assert Keys([e]) == {e.key};
    } else if m[0].key == e.key {
      assert m == [m[0]] + m[1..];
      assert e in [e] + m[1..];
      assert Keys([e] + m[1..]) == Keys(m);
    } else {
      PutKeys(m[1..], e);
      assert m == [m[0]] + m[1..];
      assert Keys([m[0]] + Put(m[1..], e)) == {m[0].key} + Keys(Put(m[1..], e));
      assert Keys(m) == {m[0].key} + Keys(m[1..]);
    }
  }

  lemma {:induction false} PutAllLast(m: seq<Entry>, es: seq<Entry>, e: Entry)
    ensures PutAll(m, es + [e]) == Put(PutAll(m, es), e)
    decreases |es|
  {
    if es == [] {
      assert es + [e] == [e] && [e][1..] == [];
    } else {
      assert (es + [e])[1..] == es[1..] + [e];
      PutAllLast(Put(m, es[0]), es[1..], e);
    }
  }

  lemma {:induction false} PutAllDistinct(m: seq<Entry>, es: seq<Entry>)
    requires DistinctKeys(m)
    ensures DistinctKeys(PutAll(m, es))
    decreases |es|
  {
    hide Put, DistinctKeys;
    if es != [] {
      PutAt(m, es[0]);
      PutAllDistinct(Put(m, es[0]), es[1..]);
    }
  }

  lemma NormKeys(es: seq<Entry>, fs: seq<Entry>)
    requires IsGoMap(es) && IsGoMap(fs) && Keys(es) <= Keys(fs)
    ensures Keys(NormEntries(es)) <= Keys(NormEntries(fs))
  {
    hide Norm, NormalizeKey, Hashable;
    forall x | x in NormEntries(es) ensures x.key in Keys(NormEntries(fs)) {
      var i :| 0 <= i < |es| && NormEntries(es)[i] == x;
      assert es[i].key in Keys(fs);
      var j :| 0 <= j < |fs| && fs[j].key == es[i].key;
      assert NormEntries(fs)[j] in NormEntries(fs) && NormEntries(fs)[j].key == x.key;
    }
  }

  /** Each entry of the map that arrives is one that was written. */
  lemma Origin(es: seq<Entry>, e: Entry) returns (i: nat)
    requires e in PutAll([], NormEntries(es))
    ensures i < |es| && e == NormEntry(es[i])
  {
    hide PutAll, NormEntry;
    PutAllKeys([], NormEntries(es));
    i :| 0 <= i < |es| && NormEntries(es)[i] == e;
  }

  // ---- Orderless values arrive the same ----

  lemma {:induction false} OrderlessSuffices(v: Value, w: Value)
    requires IsGoValue(v) && IsGoValue(w) && Same(v, w) && Orderless(v)
    ensures Same(Norm(v), Norm(w))
    decreases v
  {
    match v
    case List(items) =>
      forall i | 0 <= i < |items| ensures Same(Norm(items[i]), Norm(w.items[i])) {
        OrderlessSuffices(items[i], w.items[i]);
      }
    case Map(es) =>
      forall i, j | 0 <= i < |es| && 0 <= j < |w.entries| && es[i].key == w.entries[j].key
        ensures Same(Norm(es[i].val), Norm(w.entries[j].val))
      {
        var Entry(_, x) := es[i];
        assert x < es[i];
        OrderlessSuffices(x, w.entries[j].val);
      }
      OrderlessMap(es, w.entries);
    case Described(d, x) => OrderlessSuffices(d, w.descriptor); OrderlessSuffices(x, w.value);
    case _ =>
  }

  lemma OrderlessMap(es: seq<Entry>, fs: seq<Entry>)
    requires IsGoMap(es) && IsGoMap(fs) && Keys(es) == Keys(fs)
    requires forall i, j | 0 <= i < |es| && 0 <= j < |es| && Clash(es[i].key, es[j].key) ::
               Same(Norm(es[i].val), Norm(es[j].val))
    requires forall i, j | 0 <= i < |es| && 0 <= j < |fs| && es[i].key == fs[j].key ::
               Same(Norm(es[i].val), Norm(fs[j].val))
    ensures Same(Norm(Map(es)), Norm(Map(fs)))
  {
    hide Same, Norm, PutAll, NormEntries, NormEntry, Hashable, Keys;
    var xs, ys := PutAll([], NormEntries(es)), PutAll([], NormEntries(fs));
    NormKeys(es, fs);
    NormKeys(fs, es);
    PutAllKeys([], NormEntries(es));
    PutAllKeys([], NormEntries(fs));
    forall a, b | 0 <= a < |xs| && 0 <= b < |ys| && xs[a].key == ys[b].key ensures Same(xs[a].val, ys[b].val) {
      SameKeyed(es, fs, xs[a], ys[b]);
    }
    SameMaps(xs, ys);
    MapForms(es);
    MapForms(fs);
  }

  /** Two arriving entries of one key come from one key of the value, or from two that clash. */
  lemma SameKeyed(es: seq<Entry>, fs: seq<Entry>, x: Entry, y: Entry)
    requires IsGoMap(es) && IsGoMap(fs) && Keys(es) == Keys(fs)
    requires forall i, j | 0 <= i < |es| && 0 <= j < |es| && Clash(es[i].key, es[j].key) ::
               Same(Norm(es[i].val), Norm(es[j].val))
    requires forall i, j | 0 <= i < |es| && 0 <= j < |fs| && es[i].key == fs[j].key ::
               Same(Norm(es[i].val), Norm(fs[j].val))
    requires x in PutAll([], NormEntries(es)) && y in PutAll([], NormEntries(fs)) && x.key == y.key
    ensures Same(x.val, y.val)
  {
    hide Same, Norm, PutAll, NormEntries, Hashable, NormalizeKey, Keys;
    var i := Origin(es, x);
    var j := Origin(fs, y);
    var k := KeyOf(fs, es, j);
    if i != k {
      ClashNormalised(es[i].key, es[k].key);
      if Clash(es[k].key, es[i].key) {
        SameSymmetric(Norm(es[k].val), Norm(es[i].val));
      }
      SameTransitive(Norm(es[i].val), Norm(es[k].val), Norm(fs[j].val));
    }
  }

  // ---- Nothing less does ----

  /** The map with its i-th entry written last, its value in another order. */
  function WrittenLast(es: seq<Entry>, i: nat, x: Value): seq<Entry>
    requires i < |es|
  {
    es[..i] + es[i + 1..] + [Entry(es[i].key, x)]
  }

  /** Where the entry at b of the reordered map comes from. */
  lemma LastFrom(es: seq<Entry>, i: nat, x: Value)
    requires i < |es|
    ensures var fs := WrittenLast(es, i, x);
            && |fs| == |es| && fs[|es| - 1] == Entry(es[i].key, x)
            && forall b | 0 <= b < |es| - 1 :: fs[b] == es[if b < i then b else b + 1]
  {
  }

  lemma LastKeys(es: seq<Entry>, i: nat, x: Value)
    requires i < |es| && DistinctKeys(es)
    ensures Keys(es) == Keys(WrittenLast(es, i, x)) && DistinctKeys(WrittenLast(es, i, x))
  {
    var fs, n := WrittenLast(es, i, x), |es| - 1;
    LastFrom(es, i, x);
    hide WrittenLast;
    forall a | 0 <= a < |es| ensures es[a].key in Keys(fs) {
      var b := if a < i then a else if a == i then n else a - 1;
      assert fs[b] in fs && fs[b].key == es[a].key;
    }
    forall b | 0 <= b < |fs| ensures fs[b].key in Keys(es) {
      var a := if b == n then i else if b < i then b else b + 1;
      assert es[a] in es && fs[b].key == es[a].key;
    }
  }

  lemma LastIsSame(es: seq<Entry>, i: nat, x: Value)
    requires IsGoValue(Map(es)) && i < |es| && IsGoValue(x) && Same(es[i].val, x)
    ensures IsGoValue(Map(WrittenLast(es, i, x))) && Same(Map(es), Map(WrittenLast(es, i, x)))
  {
    var fs, n := WrittenLast(es, i, x), |es| - 1;
    LastFrom(es, i, x);
    LastKeys(es, i, x);
    forall a | 0 <= a < |es| ensures Same(es[a].val, es[a].val) { SameReflexive(es[a].val); }
    GoEntries(es);
    hide WrittenLast, Same, Hashable, IsGoValue, Keys;
    forall a, b | 0 <= a < |es| && 0 <= b < |fs| && es[a].key == fs[b].key ensures Same(es[a].val, fs[b].val) {
      assert b < n ==> fs[b] == es[if b < i then b else b + 1];
    }
    forall b | 0 <= b < |fs| ensures Hashable(fs[b].key) && IsGoValue(fs[b].val) {
      assert b < n ==> fs[b] == es[if b < i then b else b + 1];
    }
    SameMaps(es, fs);
    GoEntries(fs);
  }

  lemma GoEntries(es: seq<Entry>)
    ensures IsGoValue(Map(es)) <==>
            DistinctKeys(es) && forall i | 0 <= i < |es| :: Hashable(es[i].key) && IsGoValue(es[i].val)
  {
    hide Hashable, DistinctKeys;
  }

  lemma LastArrives(es: seq<Entry>, i: nat, x: Value)
    requires i < |es|
    ensures var fs := WrittenLast(es, i, x);
            Norm(Map(fs)) == Map(PutAll([], NormEntries(fs))) &&
            NormEntry(Entry(es[i].key, x)) in PutAll([], NormEntries(fs))
  {
    hide Norm, PutAll, NormEntry, NormEntries;
    var fs, e := WrittenLast(es, i, x), Entry(es[i].key, x);
    MapForms(fs);
    assert NormEntries(fs) == NormEntries(fs[..|fs| - 1]) + [NormEntry(e)];
    PutAllLast([], NormEntries(fs[..|fs| - 1]), NormEntry(e));
    PutKeys(PutAll([], NormEntries(fs[..|fs| - 1])), NormEntry(e));
  }

  /** Two entries that end up under one key hold the same, if the order of writing cannot be seen. */
  lemma LastsAgree(es: seq<Entry>, i: nat, x: Value, j: nat, y: Value)
    requires IsGoValue(Map(es)) && SameInAnyOrder(Map(es)) && i < |es| && j < |es|
    requires IsGoValue(x) && Same(es[i].val, x) && IsGoValue(y) && Same(es[j].val, y)
    requires NormalizeKey(Norm(es[i].key)) == NormalizeKey(Norm(es[j].key))
    ensures Same(Norm(x), Norm(y))
  {
    hide Norm, PutAll, NormEntries, NormalizeKey, IsGoValue, WrittenLast;
    var a, b := WrittenLast(es, i, x), WrittenLast(es, j, y);
    LastIsSame(es, i, x);
    LastIsSame(es, j, y);
    LastArrives(es, i, x);
    LastArrives(es, j, y);
    SameSymmetric(Norm(Map(es)), Norm(Map(a)));
    SameTransitive(Norm(Map(a)), Norm(Map(es)), Norm(Map(b)));
    EntriesSame(PutAll([], NormEntries(a)), PutAll([], NormEntries(b)),
                NormEntry(Entry(es[i].key, x)), NormEntry(Entry(es[j].key, y)));
  }

  lemma EntriesSame(xs: seq<Entry>, ys: seq<Entry>, x: Entry, y: Entry)
    requires Same(Map(xs), Map(ys)) && x in xs && y in ys && x.key == y.key
    ensures Same(x.val, y.val)
  {
    var i :| 0 <= i < |xs| && xs[i] == x;
    var j :| 0 <= j < |ys| && ys[j] == y;
  }

  lemma {:induction false} OrderlessNeeded(v: Value)
    requires IsGoValue(v) && SameInAnyOrder(v)
    ensures Orderless(v)
    decreases v
  {
    match v
    case List(items) =>
      forall i | 0 <= i < |items| ensures Orderless(items[i]) {
        ItemNeeded(items, i);
        OrderlessNeeded(items[i]);
      }
    case Map(es) =>
      forall i | 0 <= i < |es| ensures Orderless(es[i].val) {
        ValueNeeded(es, i);
        var Entry(_, x) := es[i];
        assert x < es[i];
        OrderlessNeeded(x);
      }
      ClashesNeeded(es);
    case Described(d, x) =>
      PartsNeeded(d, x);
      OrderlessNeeded(d);
      OrderlessNeeded(x);
    case _ =>
  }

  lemma Instance(v: Value, w: Value)
    requires SameInAnyOrder(v) && IsGoValue(w) && Same(v, w)
    ensures Same(Norm(v), Norm(w))
  {
    hide Norm, IsGoValue, Same;
  }

  lemma ItemNeeded(items: seq<Value>, i: nat)
    requires IsGoValue(List(items)) && SameInAnyOrder(List(items)) && i < |items|
    ensures SameInAnyOrder(items[i])
  {
    forall x | IsGoValue(x) && Same(items[i], x) ensures Same(Norm(items[i]), Norm(x)) {
      SameButOne(items, i, x);
      hide Norm, IsGoValue, SameInAnyOrder;
      Instance(List(items), List(items[i := x]));
      NormList(items);
      NormList(items[i := x]);
      hide Same;
      SameItems(NormItems(items), NormItems(items[i := x]), i);
    }
  }

  lemma SameButOne(items: seq<Value>, i: nat, x: Value)
    requires IsGoValue(List(items)) && i < |items| && IsGoValue(x) && Same(items[i], x)
    ensures IsGoValue(List(items[i := x])) && Same(List(items), List(items[i := x]))
  {
    forall k | 0 <= k < |items| ensures Same(items[k], items[k]) { SameReflexive(items[k]); }
  }

  lemma SameItems(xs: seq<Value>, ys: seq<Value>, i: nat)
    requires Same(List(xs), List(ys)) && i < |xs|
    ensures i < |ys| && Same(xs[i], ys[i])
  {
  }

  lemma NormList(items: seq<Value>)
    ensures Norm(List(items)) == List(NormItems(items))
  {
  }

  lemma PartsNeeded(d: Value, x: Value)
    requires IsGoValue(Described(d, x)) && SameInAnyOrder(Described(d, x))
    ensures SameInAnyOrder(d) && SameInAnyOrder(x)
  {
    SameReflexive(d);
    SameReflexive(x);
    forall e | IsGoValue(e) && Same(d, e) ensures Same(Norm(d), Norm(e)) { PartInstance(d, x, e, x); }
    forall y | IsGoValue(y) && Same(x, y) ensures Same(Norm(x), Norm(y)) { PartInstance(d, x, d, y); }
  }

  lemma PartInstance(d: Value, x: Value, e: Value, y: Value)
    requires SameInAnyOrder(Described(d, x)) && IsGoValue(e) && IsGoValue(y) && Same(d, e) && Same(x, y)
    ensures Same(Norm(d), Norm(e)) && Same(Norm(x), Norm(y))
  {
    DescribedSame(d, x, e, y);
    DescribedSame(Norm(d), Norm(x), Norm(e), Norm(y));
    NormDescribed(d, x);
    NormDescribed(e, y);
    hide SameInAnyOrder, Norm, Same;
    Instance(Described(d, x), Described(e, y));
  }

  lemma DescribedSame(d: Value, x: Value, e: Value, y: Value)
    ensures Same(Described(d, x), Described(e, y)) <==> Same(d, e) && Same(x, y)
  {
  }

  lemma NormDescribed(d: Value, x: Value)
    ensures Norm(Described(d, x)) == Described(Norm(d), Norm(x))
  {
  }

  lemma ValueNeeded(es: seq<Entry>, i: nat)
    requires IsGoValue(Map(es)) && SameInAnyOrder(Map(es)) && i < |es|
    ensures SameInAnyOrder(es[i].val)
  {
    hide Norm, Same;
    forall x | IsGoValue(x) && Same(es[i].val, x) ensures Same(Norm(es[i].val), Norm(x)) {
      SameReflexive(es[i].val);
      LastsAgree(es, i, es[i].val, i, x);
    }
  }

  lemma ClashesNeeded(es: seq<Entry>)
    requires IsGoValue(Map(es)) && SameInAnyOrder(Map(es))
    ensures forall i, j | 0 <= i < |es| && 0 <= j < |es| && Clash(es[i].key, es[j].key) ::
              Same(Norm(es[i].val), Norm(es[j].val))
  {
    hide Norm, Same, NormalizeKey, Hashable;
    forall i, j | 0 <= i < |es| && 0 <= j < |es| && Clash(es[i].key, es[j].key)
      ensures Same(Norm(es[i].val), Norm(es[j].val))
    {
      SameReflexive(es[i].val);
      SameReflexive(es[j].val);
      ClashNormalised(es[i].key, es[j].key);
      LastsAgree(es, i, es[i].val, j, es[j].val);
    }
  }

  // ---- The exact condition ----

  lemma OrderExactly(v: Value)
    requires IsGoValue(v)
    ensures SameInAnyOrder(v) <==> Orderless(v)
  {
    hide Norm, Same, IsGoValue, Orderless;
    if Orderless(v) {
      forall w | IsGoValue(w) && Same(v, w) ensures Same(Norm(v), Norm(w)) { OrderlessSuffices(v, w); }
    }
    if SameInAnyOrder(v) {
      OrderlessNeeded(v);
    }
  }

  /** What a value is read back as. */
  function Arriving(v: Value, rest: bytes): Parsed<Value>
    requires Encodable(v)
  {
    Read(Encode(v) + rest)
  }

  /** Two writes are read back as the same value. */
  predicate ArriveSame(v: Value, w: Value, rest: bytes)
    requires Encodable(v) && Encodable(w)
  {
    && Arriving(v, rest).Ok? && Arriving(w, rest).Ok?
    && Same(Arriving(v, rest).value, Arriving(w, rest).value)
  }

  /**
   Over the wire: all orders of writing a value are read back as the same value exactly when, wherever a
   symbol key has the name of a string key, both hold the same.
   */
  lemma WriteOrderExactly(v: Value, rest: bytes)
    requires Encodable(v) && LengthsFit(v) && IsGoValue(v)
    ensures (forall w | IsGoValue(w) && Same(v, w) :: Encodable(w) && ArriveSame(v, w, rest)) <==> Orderless(v)
  {
    hide Norm, Same, IsGoValue, Orderless, Encodable, LengthsFit, Arriving;
    OrderExactly(v);
    forall w | IsGoValue(w) && Same(v, w)
      ensures Encodable(w) && (ArriveSame(v, w, rest) <==> Same(Norm(v), Norm(w)))
    {
      SameFits(v, w);
      ArrivesAsNorm(v, rest);
      ArrivesAsNorm(w, rest);
    }
    if Orderless(v) {
      forall w | IsGoValue(w) && Same(v, w) ensures Encodable(w) && ArriveSame(v, w, rest) { Instance(v, w); }
    }
    if forall w | IsGoValue(w) && Same(v, w) :: Encodable(w) && ArriveSame(v, w, rest) {
      forall w | IsGoValue(w) && Same(v, w) ensures Same(Norm(v), Norm(w)) {
        assert Encodable(w) && ArriveSame(v, w, rest);
      }
    }
  }

  lemma ArrivesAsNorm(v: Value, rest: bytes)
    requires Encodable(v) && LengthsFit(v) && IsGoValue(v)
    ensures Arriving(v, rest) == Ok(Norm(v), |Encode(v)|)
  {
    hide Norm, Read, Encode, IsGoValue, Encodable, LengthsFit;
    GoKeysHashable(v);
    RoundTrip(v, rest);
  }

  /** Values without a clash are among them. */
  lemma {:induction false} NoClashOrderless(v: Value)
    requires NoClash(v)
    ensures Orderless(v)
    decreases v
  {
    match v
    case List(items) =>
      forall i | 0 <= i < |items| ensures Orderless(items[i]) { NoClashOrderless(items[i]); }
    case Map(es) =>
      forall i | 0 <= i < |es| ensures Orderless(es[i].val) {
        var Entry(_, x) := es[i];
        assert x < es[i];
        NoClashOrderless(x);
      }
    case Described(d, x) => NoClashOrderless(d); NoClashOrderless(x);
    case _ =>
  }
}
