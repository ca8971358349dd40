/**
 The entities of one table: two-level maps by partition and row key, properties kept as raw JSON,
 and ETags that guard updates and deletes.
 */
module TableStore {
  import opened EntityTags
  import opened Wrappers

  type Json = string

  type Props = map<string, Json>

  datatype Entity = Entity(pk: string, rk: string, props: Props, timestamp: Instant, etag: string)

  type Key = (string, string)

  /** What is stored, as one map. */
  type Flat = map<Key, Entity>

  type Partitions = map<string, map<string, Entity>>

  datatype Result = Stored(e: Entity) | Gone | EntityExists | EntityNotFound | ETagMismatch

  /** Properties only the server writes. */
  predicate IsServerProp(k: string) {
    k in {"Timestamp", "odata.metadata", "odata.etag", "odata.type", "odata.id", "odata.editLink"}
  }

  // ---- What the operations do to the stored entities ----

  predicate MatchETag(e: Entity, ifMatch: string) {
    ifMatch == "" || ifMatch == "*" || ifMatch == e.etag
  }

  function Strip(props: Props): Props {
    map k | k in props && !IsServerProp(k) :: props[k]
  }

  /** `marshal` renders a string as JSON. */
  function Build(marshal: string -> Json, pk: string, rk: string, props: Props, now: Instant): Entity {
    Entity(pk, rk, Strip(props)["PartitionKey" := marshal(pk)]["RowKey" := marshal(rk)], now, EtagFor(now))
  }

  /** The old properties overlaid by the new ones. */
  function Merged(before: Props, props: Props): Props {
    before + Strip(props)
  }

  function Insert(marshal: string -> Json, flat: Flat, pk: string, rk: string, props: Props, now: Instant): (Flat, Result)
  {
    if (pk, rk) in flat then (flat, EntityExists)
    else
      var e := Build(marshal, pk, rk, props, now);
      (flat[(pk, rk) := e], Stored(e))
  }

  function Update(marshal: string -> Json, flat: Flat, pk: string, rk: string, props: Props, ifMatch: string,
                  merge: bool, now: Instant): (Flat, Result)
  {
    if (pk, rk) !in flat && ifMatch != "" then (flat, EntityNotFound)
    else if (pk, rk) in flat && !MatchETag(flat[(pk, rk)], ifMatch) then (flat, ETagMismatch)
    else
      var kept := if merge && (pk, rk) in flat then Merged(flat[(pk, rk)].props, props) else props;
      var e := Build(marshal, pk, rk, kept, now);
      (flat[(pk, rk) := e], Stored(e))
  }

  function Delete(flat: Flat, pk: string, rk: string, ifMatch: string): (Flat, Result) {
    if (pk, rk) !in flat then (flat, EntityNotFound)
    else if !MatchETag(flat[(pk, rk)], ifMatch) then (flat, ETagMismatch)
    else (flat - {(pk, rk)}, Gone)
  }

  /** Merging keeps what is not named, takes what is, and the keys are the entity's own. */
  lemma MergeIsOverlay(marshal: string -> Json, flat: Flat, pk: string, rk: string, props: Props, ifMatch: string,
                       now: Instant, k: string)
    requires (pk, rk) in flat && Update(marshal, flat, pk, rk, props, ifMatch, true, now).1.Stored?
    requires forall name | name in flat[(pk, rk)].props :: !IsServerProp(name)
    ensures var before, after := flat[(pk, rk)].props, Update(marshal, flat, pk, rk, props, ifMatch, true, now).1.e.props;
            && (k == "PartitionKey" ==> k in after && after[k] == marshal(pk))
            && (k == "RowKey" ==> k in after && after[k] == marshal(rk))
            && (IsServerProp(k) ==> k !in after)
            && (!IsServerProp(k) && k != "PartitionKey" && k != "RowKey" ==>
                  (k in after <==> k in before || k in props)
                  && (k in after ==> after[k] == if k in props then props[k] else before[k]))
  {
  }

  /** An insert or a replace stores the new properties and no old one. */
  lemma ReplaceForgets(marshal: string -> Json, flat: Flat, pk: string, rk: string, props: Props, ifMatch: string,
                       now: Instant, k: string)
    requires Update(marshal, flat, pk, rk, props, ifMatch, false, now).1.Stored?
    ensures var after := Update(marshal, flat, pk, rk, props, ifMatch, false, now).1.e.props;
            && (k == "PartitionKey" ==> k in after && after[k] == marshal(pk))
            && (k == "RowKey" ==> k in after && after[k] == marshal(rk))
            && (k != "PartitionKey" && k != "RowKey" ==>
                  (k in after <==> k in props && !IsServerProp(k)) && (k in after ==> after[k] == props[k]))
    ensures (pk, rk) !in flat ==>
              Insert(marshal, flat, pk, rk, props, now) == Update(marshal, flat, pk, rk, props, ifMatch, false, now)
  {
    hide IsServerProp;
    BuiltAt(marshal, pk, rk, props, now, k);
  }

  /**
   Two successful merges, each at its own time and on its own condition, are the second merge with both
   sets of properties, the later winning.
   */
  lemma MergesCompose(marshal: string -> Json, flat: Flat, pk: string, rk: string, a: Props, b: Props,
                      first: string, second: string, t1: Instant, t2: Instant)
    requires var r := Update(marshal, flat, pk, rk, a, first, true, t1);
             r.1.Stored? && Update(marshal, r.0, pk, rk, b, second, true, t2).1.Stored?
    ensures var once := Update(marshal, flat, pk, rk, a, first, true, t1).0;
            Update(marshal, once, pk, rk, b, second, true, t2) ==
            Update(marshal, flat, pk, rk, a + b, first, true, t2)
  {
    hide Build, Merged, Strip;
    var key := (pk, rk);
    var once := Update(marshal, flat, pk, rk, a, first, true, t1).0;
    var props := if key in flat then Merged(flat[key].props, a) else a;
    var both := if key in flat then Merged(flat[key].props, a + b) else a + b;
    var twice := Merged(Build(marshal, pk, rk, props, t1).props, b);
    assert Build(marshal, pk, rk, twice, t2) == Build(marshal, pk, rk, both, t2) by {
      if key in flat {
        MergedTwice(marshal, pk, rk, flat[key].props, a, b, t1, t2);
      } else {
        MergedOnce(marshal, pk, rk, a, b, t1, t2);
      }
    }
    assert once[key := Build(marshal, pk, rk, both, t2)] == flat[key := Build(marshal, pk, rk, both, t2)];
  }

  lemma MergedTwice(marshal: string -> Json, pk: string, rk: string, props: Props, a: Props, b: Props,
                    t1: Instant, t2: Instant)
    ensures Build(marshal, pk, rk, Merged(Build(marshal, pk, rk, Merged(props, a), t1).props, b), t2) ==
            Build(marshal, pk, rk, Merged(props, a + b), t2)
  {
    hide IsServerProp, Build, Merged;
    var once := Build(marshal, pk, rk, Merged(props, a), t1).props;
    var twice, both := Build(marshal, pk, rk, Merged(once, b), t2), Build(marshal, pk, rk, Merged(props, a + b), t2);
    forall k ensures (k in twice.props <==> k in both.props) && (k in twice.props ==> twice.props[k] == both.props[k]) {
      BuiltAt(marshal, pk, rk, Merged(props, a), t1, k);
      BuiltAt(marshal, pk, rk, Merged(once, b), t2, k);
      BuiltAt(marshal, pk, rk, Merged(props, a + b), t2, k);
      MergedAt(props, a, k);
      MergedAt(once, b, k);
      MergedAt(props, a + b, k);
    }
    SameMap(twice.props, both.props);
    BuildKeys(marshal, pk, rk, Merged(once, b), t2);
    BuildKeys(marshal, pk, rk, Merged(props, a + b), t2);
  }

  lemma MergedOnce(marshal: string -> Json, pk: string, rk: string, a: Props, b: Props, t1: Instant, t2: Instant)
    ensures Build(marshal, pk, rk, Merged(Build(marshal, pk, rk, a, t1).props, b), t2) == Build(marshal, pk, rk, a + b, t2)
  {
    hide IsServerProp, Build, Merged;
    var once := Build(marshal, pk, rk, a, t1).props;
    var twice, both := Build(marshal, pk, rk, Merged(once, b), t2), Build(marshal, pk, rk, a + b, t2);
    forall k ensures (k in twice.props <==> k in both.props) && (k in twice.props ==> twice.props[k] == both.props[k]) {
      BuiltAt(marshal, pk, rk, a, t1, k);
      BuiltAt(marshal, pk, rk, Merged(once, b), t2, k);
      BuiltAt(marshal, pk, rk, a + b, t2, k);
      MergedAt(once, b, k);
    }
    SameMap(twice.props, both.props);
    BuildKeys(marshal, pk, rk, Merged(once, b), t2);
    BuildKeys(marshal, pk, rk, a + b, t2);
  }

  lemma BuiltAt(marshal: string -> Json, pk: string, rk: string, props: Props, now: Instant, k: string)
    ensures var built := Build(marshal, pk, rk, props, now).props;
            && (k in built <==> k == "RowKey" || k == "PartitionKey" || (k in props && !IsServerProp(k)))
            && (k in built ==>
                  built[k] == if k == "RowKey" then marshal(rk) else if k == "PartitionKey" then marshal(pk) else props[k])
  {
  }

  lemma MergedAt(before: Props, props: Props, k: string)
    ensures var merged := Merged(before, props);
            && (k in merged <==> k in before || (k in props && !IsServerProp(k)))
            && (k in merged ==> merged[k] == if k in props && !IsServerProp(k) then props[k] else before[k])
  {
  }

  // ---- The two-level map ----

  function Flatten(ps: Partitions): Flat {
    map pk, rk | pk in ps && rk in ps[pk] :: (pk, rk) := ps[pk][rk]
  }

  predicate NoEmptyPartition(ps: Partitions) {
    forall pk | pk in ps :: ps[pk] != map[]
  }

  /** Without empty partitions the two-level map is determined by what it stores. */
  lemma FlattenInjective(a: Partitions, b: Partitions)
    requires NoEmptyPartition(a) && NoEmptyPartition(b) && Flatten(a) == Flatten(b)
    ensures a == b
  {
    PartitionsFrom(a, b);
    PartitionsFrom(b, a);
    forall pk | pk in a ensures a[pk] == b[pk] {
      forall rk ensures (rk in a[pk] <==> rk in b[pk]) && (rk in a[pk] ==> a[pk][rk] == b[pk][rk]) {
        assert (pk, rk) in Flatten(a) <==> (pk, rk) in Flatten(b);
        assert (pk, rk) in Flatten(a) ==> Flatten(a)[(pk, rk)] == Flatten(b)[(pk, rk)];
      }
    }
  }

  lemma PartitionsFrom(a: Partitions, b: Partitions)
    requires NoEmptyPartition(a) && Flatten(a) == Flatten(b)
    ensures a.Keys <= b.Keys
  {
    forall pk | pk in a ensures pk in b {
      assert a[pk] != map[];
      var rk :| rk in a[pk];
      assert (pk, rk) in Flatten(a);
    }
  }

  lemma FlatAt(ps: Partitions, key: Key)
    ensures key in Flatten(ps) <==> key.0 in ps && key.1 in ps[key.0]
    ensures key in Flatten(ps) ==> Flatten(ps)[key] == ps[key.0][key.1]
  {
    assert key == (key.0, key.1);
  }

  lemma SameMap<K, V>(a: map<K, V>, b: map<K, V>)
    requires forall k :: (k in a <==> k in b) && (k in a ==> a[k] == b[k])
    ensures a == b
  {
  }

  lemma FlattenPut(ps: Partitions, e: Entity)
    ensures var rows := (if e.pk in ps then ps[e.pk] else map[])[e.rk := e];
            Flatten(ps[e.pk := rows]) == Flatten(ps)[(e.pk, e.rk) := e]
  {
    hide Flatten;
    var ps' := ps[e.pk := (if e.pk in ps then ps[e.pk] else map[])[e.rk := e]];
    var a, b := Flatten(ps'), Flatten(ps)[(e.pk, e.rk) := e];
    forall key: Key ensures (key in a <==> key in b) && (key in a ==> a[key] == b[key]) {
      FlatAt(ps', key);
      FlatAt(ps, key);
    }
    SameMap(a, b);
  }

  /** The partitions without one row, and without its partition when it was the last. */
  function Without(ps: Partitions, pk: string, rk: string): Partitions
    requires pk in ps
  {
    var rows := ps[pk] - {rk};
    if rows == map[] then ps - {pk} else ps[pk := rows]
  }

  lemma FlattenDelete(ps: Partitions, pk: string, rk: string)
    requires pk in ps && rk in ps[pk]
    ensures Flatten(Without(ps, pk, rk)) == Flatten(ps) - {(pk, rk)}
  {
    hide Flatten;
    var ps' := Without(ps, pk, rk);
    var a, b := Flatten(ps'), Flatten(ps) - {(pk, rk)};
    forall key: Key ensures (key in a <==> key in b) && (key in a ==> a[key] == b[key]) {
      FlatAt(ps', key);
      FlatAt(ps, key);
      assert key.0 == pk && key.1 in ps[pk] && key.1 != rk ==> key.1 in ps[pk] - {rk};
    }
    SameMap(a, b);
  }

  class Table {
    const marshal: string -> Json
    var entities: Partitions

    constructor (marshal: string -> Json)
      ensures this.marshal == marshal && entities == map[] && NoEmptyPartition(entities)
    {
      this.marshal, entities := marshal, map[];
    }

    /** What is stored. */
    ghost function Contents(): Flat
      reads this
    {
      Flatten(entities)
    }

    method Get(pk: string, rk: string) returns (e: Option<Entity>)
      ensures e == if (pk, rk) in Contents() then Some(Contents()[(pk, rk)]) else None
    {
      if pk !in entities {
        return None;
      }
      var rows := entities[pk];
      return if rk in rows then Some(rows[rk]) else None;
    }

    method Put(e: Entity)
      requires NoEmptyPartition(entities)
      modifies this
      ensures NoEmptyPartition(entities) && Contents() == old(Contents())[(e.pk, e.rk) := e]
    {
      hide Flatten;
      FlattenPut(entities, e);
      var rows := map[];
      if e.pk in entities {
        rows := entities[e.pk];
      }
      entities := entities[e.pk := rows[e.rk := e]];
      assert e.rk in entities[e.pk];
    }

    method Remove(pk: string, rk: string) returns (was: bool)
      requires NoEmptyPartition(entities)
      modifies this
      ensures NoEmptyPartition(entities) && Contents() == old(Contents()) - {(pk, rk)}
      ensures was <==> (pk, rk) in old(Contents())
    {
      hide Flatten;
      FlatAt(entities, (pk, rk));
      if pk !in entities {
        return false;
      }
      var rows := entities[pk];
      if rk !in rows {
        return false;
      }
      FlattenDelete(entities, pk, rk);
      rows := rows - {rk};
      if |rows| == 0 {
        entities := entities - {pk};
      } else {
        entities := entities[pk := rows];
      }
      return true;
    }

    method StripServerProps(props: Props) returns (r: Props)
      ensures r == Strip(props)
    {
      r := map[];
      var unseen := props.Keys;
      while unseen != {}
        invariant unseen <= props.Keys
        invariant r == map k | k in props && k !in unseen && !IsServerProp(k) :: props[k]
        decreases |unseen|
      {
        var k :| k in unseen;
        unseen := unseen - {k};
        if IsServerProp(k) {
          continue;
        }
        r := r[k := props[k]];
      }
    }

    method BuildEntity(pk: string, rk: string, props: Props, now: Instant) returns (e: Entity)
      ensures e == Build(marshal, pk, rk, props, now)
    {
      var clean := StripServerProps(props);
      clean := clean["PartitionKey" := marshal(pk)];
      clean := clean["RowKey" := marshal(rk)];
      return Entity(pk, rk, clean, now, EtagFor(now));
    }

    method InsertEntity(pk: string, rk: string, props: Props, now: Instant) returns (r: Result)
      requires NoEmptyPartition(entities)
      modifies this
      ensures NoEmptyPartition(entities)
      ensures (Contents(), r) == Insert(marshal, old(Contents()), pk, rk, props, now)
    {
      hide Flatten, Build;
      var existing := Get(pk, rk);
      if existing.Some? {
        return EntityExists;
      }
      var e := BuildEntity(pk, rk, props, now);
      BuildKeys(marshal, pk, rk, props, now);
      Put(e);
      return Stored(e);
    }

    method ReplaceEntity(pk: string, rk: string, props: Props, ifMatch: string, now: Instant) returns (r: Result)
      requires NoEmptyPartition(entities)
      modifies this
      ensures NoEmptyPartition(entities)
      ensures (Contents(), r) == Update(marshal, old(Contents()), pk, rk, props, ifMatch, false, now)
    {
      r := UpdateEntity(pk, rk, props, ifMatch, false, now);
    }

    method MergeEntity(pk: string, rk: string, props: Props, ifMatch: string, now: Instant) returns (r: Result)
      requires NoEmptyPartition(entities)
      modifies this
      ensures NoEmptyPartition(entities)
      ensures (Contents(), r) == Update(marshal, old(Contents()), pk, rk, props, ifMatch, true, now)
    {
      r := UpdateEntity(pk, rk, props, ifMatch, true, now);
    }

    method UpdateEntity(pk: string, rk: string, props: Props, ifMatch: string, merge: bool, now: Instant)
      returns (r: Result)
      requires NoEmptyPartition(entities)
      modifies this
      ensures NoEmptyPartition(entities)
      ensures (Contents(), r) == Update(marshal, old(Contents()), pk, rk, props, ifMatch, merge, now)
    {
      hide Flatten, Build, Strip;
      var e: Entity;
      var existing := Get(pk, rk);
      if existing.None? {
        if ifMatch != "" && ifMatch != "*" {
          return EntityNotFound;
        }
        if ifMatch == "*" {
          return EntityNotFound;
        }
        e := BuildEntity(pk, rk, props, now);
        BuildKeys(marshal, pk, rk, props, now);
        Put(e);
        return Stored(e);
      }
      if !MatchETag(existing.value, ifMatch) {
        return ETagMismatch;
      }
      if merge {
        var stripped := StripServerProps(props);
        var merged := Overlay(existing.value.props, stripped);
        e := BuildEntity(pk, rk, merged, now);
        BuildKeys(marshal, pk, rk, merged, now);
      } else {
        e := BuildEntity(pk, rk, props, now);
        BuildKeys(marshal, pk, rk, props, now);
      }
      Put(e);
      return Stored(e);
    }

    /** The copying loops of a merge. */
    method Overlay(before: Props, props: Props) returns (merged: Props)
      ensures merged == before + props
    {
      merged := CopyInto(map[], before);
      assert map[] + before == before;
      merged := CopyInto(merged, props);
    }

    method CopyInto(into: Props, props: Props) returns (merged: Props)
      ensures merged == into + props
    {
      hide Seen;
      merged := into;
      var unseen := props.Keys;
      SeenEnds(into, props);
      while unseen != {}
        invariant unseen <= props.Keys && merged == into + Seen(props, unseen)
        decreases |unseen|
      {
        var k :| k in unseen;
        SeenStep(into, props, unseen, k);
        unseen := unseen - {k};
        merged := merged[k := props[k]];
      }
    }

    method DeleteEntity(pk: string, rk: string, ifMatch: string) returns (r: Result)
      requires NoEmptyPartition(entities)
      modifies this
      ensures NoEmptyPartition(entities)
      ensures (Contents(), r) == Delete(old(Contents()), pk, rk, ifMatch)
    {
      hide Flatten;
      var existing := Get(pk, rk);
      if existing.None? {
        return EntityNotFound;
      }
      if !MatchETag(existing.value, ifMatch) {
        return ETagMismatch;
      }
      var was := Remove(pk, rk);
      return Gone;
    }
  }

  function Seen(props: Props, unseen: set<string>): Props {
    map k | k in props && k !in unseen :: props[k]
  }

  lemma SeenStep(into: Props, props: Props, unseen: set<string>, k: string)
    requires k in unseen && k in props
    ensures into + Seen(props, unseen - {k}) == (into + Seen(props, unseen))[k := props[k]]
  {
    SameMap(into + Seen(props, unseen - {k}), (into + Seen(props, unseen))[k := props[k]]);
  }

  lemma SeenEnds(into: Props, props: Props)
    ensures into + Seen(props, props.Keys) == into && Seen(props, {}) == props
  {
    SameMap(into + Seen(props, props.Keys), into);
    SameMap(Seen(props, {}), props);
  }

  lemma BuildKeys(marshal: string -> Json, pk: string, rk: string, props: Props, now: Instant)
    ensures var e := Build(marshal, pk, rk, props, now);
            e.pk == pk && e.rk == rk && e.timestamp == now && e.etag == EtagFor(now)
  {
  }
}
