/** What a stored entity holds, which conditions are none, and what an ETag looks like. */
module TableLaws {
  import opened EntityTags
  import opened TableStore

  /** What the service writes itself is dropped from what a client sends. */
  const SERVER_NAMES: set<string> := {
    "Timestamp", "odata.metadata", "odata.etag", "odata.type", "odata.id", "odata.editLink"
  }

  const KEY_NAMES: set<string> := {"PartitionKey", "RowKey"}

  /** An entity as it is stored from these properties at this time. */
  ghost predicate Holds(marshal: string -> Json, e: Entity, pk: string, rk: string, props: Props, now: Instant) {
    && e.pk == pk && e.rk == rk && e.timestamp == now && e.etag == EtagFor(now)
    && (forall k :: k in e.props <==> (k in props && k !in SERVER_NAMES) || k in KEY_NAMES)
    && (forall k | k in props && k !in SERVER_NAMES && k !in KEY_NAMES :: e.props[k] == props[k])
    && e.props["PartitionKey"] == marshal(pk) && e.props["RowKey"] == marshal(rk)
  }

  /** An insert stores a new entity and touches no other; an existing one stays. */
  lemma InsertStores(marshal: string -> Json, flat: Flat, pk: string, rk: string, props: Props, now: Instant)
    ensures var (after, r) := Insert(marshal, flat, pk, rk, props, now);
            if (pk, rk) in flat then after == flat && r == EntityExists
            else r.Stored? && Holds(marshal, r.e, pk, rk, props, now) && after == flat[(pk, rk) := r.e]
  {
    hide EtagFor;
  }

  /** Without a condition a replace always stores, and with any-ETag exactly when the entity exists. */
  lemma ReplaceStores(marshal: string -> Json, flat: Flat, pk: string, rk: string, props: Props, now: Instant)
    ensures var (after, r) := Update(marshal, flat, pk, rk, props, "", false, now);
            r.Stored? && Holds(marshal, r.e, pk, rk, props, now) && after == flat[(pk, rk) := r.e]
    ensures var (after, r) := Update(marshal, flat, pk, rk, props, "*", false, now);
            if (pk, rk) in flat then r.Stored? && Holds(marshal, r.e, pk, rk, props, now) && after == flat[(pk, rk) := r.e]
            else after == flat && r == EntityNotFound
  {
    hide EtagFor;
  }

  /** The old properties where the new ones are silent, or only the service's own. */
  function Overlaid(before: Props, props: Props): Props {
    map k | k in before.Keys + props.Keys ::
      if k in props && k !in SERVER_NAMES then props[k] else if k in before then before[k] else props[k]
  }

  /** A merge stores the new properties over the old ones. */
  lemma MergeStores(marshal: string -> Json, flat: Flat, pk: string, rk: string, props: Props, ifMatch: string,
                    now: Instant)
    requires (pk, rk) in flat && ifMatch in {"", "*"} && forall k | k in flat[(pk, rk)].props :: k !in SERVER_NAMES
    ensures var (after, r) := Update(marshal, flat, pk, rk, props, ifMatch, true, now);
            r.Stored? && Holds(marshal, r.e, pk, rk, Overlaid(flat[(pk, rk)].props, props), now)
            && after == flat[(pk, rk) := r.e]
  {
    var before := flat[(pk, rk)].props;
    BuiltHolds(marshal, pk, rk, Merged(before, props), now);
    MergedIs(before, props);
    hide EtagFor, Build, Merged, Overlaid;
    SameStored(marshal, Build(marshal, pk, rk, Merged(before, props), now), pk, rk, Merged(before, props),
               Overlaid(before, props), now);
  }

  lemma BuiltHolds(marshal: string -> Json, pk: string, rk: string, props: Props, now: Instant)
    ensures Holds(marshal, Build(marshal, pk, rk, props, now), pk, rk, props, now)
  {
    hide EtagFor;
  }

  /** The two differ at most in the service's own properties. */
  lemma MergedIs(before: Props, props: Props)
    requires forall k | k in before :: k !in SERVER_NAMES
    ensures forall k | k !in SERVER_NAMES ::
              (k in Merged(before, props) <==> k in Overlaid(before, props))
              && (k in Merged(before, props) ==> Merged(before, props)[k] == Overlaid(before, props)[k])
  {
  }

  lemma SameStored(marshal: string -> Json, e: Entity, pk: string, rk: string, props: Props, others: Props, now: Instant)
    requires Holds(marshal, e, pk, rk, props, now)
    requires forall k | k !in SERVER_NAMES :: (k in props <==> k in others) && (k in props ==> props[k] == others[k])
    ensures Holds(marshal, e, pk, rk, others, now)
  {
    hide EtagFor;
  }

  /** Without a condition, or with any-ETag, a delete removes the entity exactly when it exists, and no other. */
  lemma DeleteRemoves(flat: Flat, pk: string, rk: string)
    ensures forall ifMatch | ifMatch in {"", "*"} ::
              Delete(flat, pk, rk, ifMatch) ==
              if (pk, rk) in flat then (map k | k in flat && k != (pk, rk) :: flat[k], Gone) else (flat, EntityNotFound)
  {
    assert (map k | k in flat && k != (pk, rk) :: flat[k]) == flat - {(pk, rk)};
  }

  /** The second of January 2024 at five seconds past 3:04, and 67 ticks of 100 nanoseconds. */
  lemma EtagLooks()
    ensures EtagFor(Time(2024, 1, 2, 3, 4, 5, 67)) ==
            "W/\"datetime'" + (("2024" + ("-" + ("01" + ("-" + ("02" + ("T" +
              ("03" + ("%3A" + ("04" + ("%3A" + ("05" + ("." + ("0000067" + "Z"))))))))))))) + "'\"")
  {
    hide Pad;
    FourDigits(2, 0, 2, 4);
    TwoDigits(0, 1);
    TwoDigits(0, 2);
    TwoDigits(0, 3);
    TwoDigits(0, 4);
    TwoDigits(0, 5);
    SevenDigits();
    assert Pad(4, 2024) == "2024" && Pad(2, 1) == "01" && Pad(2, 2) == "02";
    assert Pad(2, 3) == "03" && Pad(2, 4) == "04" && Pad(2, 5) == "05";
  }

  lemma OneDigit(d: nat)
    requires d < 10
    ensures Pad(1, d) == ['0' + d as char]
  {
    assert Pad(0, d / 10) == "";
  }

  lemma PadOne(w: nat, n: nat, d: nat)
    requires d < 10
    ensures Pad(w + 1, 10 * n + d) == Pad(w, n) + ['0' + d as char]
  {
    assert (10 * n + d) / 10 == n && (10 * n + d) % 10 == d;
  }

  lemma TwoDigits(a: nat, b: nat)
    requires a < 10 && b < 10
    ensures Pad(2, 10 * a + b) == ['0' + a as char, '0' + b as char]
  {
    OneDigit(a);
    PadOne(1, a, b);
  }

  lemma FourDigits(a: nat, b: nat, c: nat, d: nat)
    requires a < 10 && b < 10 && c < 10 && d < 10
    ensures Pad(4, 1000 * a + 100 * b + 10 * c + d) ==
            ['0' + a as char, '0' + b as char, '0' + c as char, '0' + d as char]
  {
    hide Pad;
    TwoDigits(a, b);
    PadOne(2, 10 * a + b, c);
    PadOne(3, 100 * a + 10 * b + c, d);
  }

  lemma SevenDigits()
    ensures Pad(7, 67) == "0000067"
  {
    FourDigits(0, 0, 0, 0);
    PadOne(4, 0, 0);
    PadOne(5, 0, 6);
    PadOne(6, 6, 7);
  }
}
