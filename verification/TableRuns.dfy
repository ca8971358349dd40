/**
 Every run of inserts, updates and deletes on one table, the clock ticking between any two stored
 writes: ETags make compare-and-swap.
 */
module TableRuns {
  import opened EntityTags
  import opened TableStore
  import opened Wrappers

  /** A successful call. */
  datatype Action =
    | Inserted(key: Key, tag: string)
    | Updated(key: Key, ifMatch: string, tag: string)
    | Deleted(key: Key, ifMatch: string)

  type Log = seq<Action>

  predicate Writes(a: Action) {
    !a.Deleted?
  }

  /** A call that named one ETag. */
  predicate Conditional(a: Action) {
    !a.Inserted? && Concrete(a.ifMatch)
  }

  /** The ETag last issued for a key, or None when the entity does not exist. */
  function LastTag(log: Log, key: Key): Option<string> {
    if log == [] then None
    else
      var a := log[|log| - 1];
      if a.key != key then LastTag(log[..|log| - 1], key) else if Writes(a) then Some(a.tag) else None
  }

  predicate Satisfies(last: Option<string>, ifMatch: string) {
    if last.None? then ifMatch == "" else ifMatch == "" || ifMatch == "*" || ifMatch == last.value
  }

  /** The call may succeed after this log, and an ETag it issues is new. */
  ghost predicate Legal(log: Log, a: Action) {
    && (Writes(a) ==> forall b | b in log && Writes(b) :: b.tag != a.tag)
    && match a
       case Inserted(key, _) => LastTag(log, key).None?
       case Updated(key, ifMatch, _) => Satisfies(LastTag(log, key), ifMatch)
       case Deleted(key, ifMatch) => LastTag(log, key).Some? && Satisfies(LastTag(log, key), ifMatch)
  }

  ghost predicate LegalLog(log: Log) {
    log == [] || (LegalLog(log[..|log| - 1]) && Legal(log[..|log| - 1], log[|log| - 1]))
  }

  lemma LogStep(log: Log, a: Action)
    ensures forall key :: LastTag(log + [a], key) ==
                          if a.key != key then LastTag(log, key) else if Writes(a) then Some(a.tag) else None
    ensures LegalLog(log + [a]) <==> LegalLog(log) && Legal(log, a)
  {
    assert (log + [a])[..|log|] == log;
  }

  /** A stored entity carries its own keys and none of the server's properties. */
  ghost predicate WellKept(marshal: string -> Json, key: Key, e: Entity) {
    && (e.pk, e.rk) == key
    && (forall k | k in e.props :: !IsServerProp(k))
    && "PartitionKey" in e.props && e.props["PartitionKey"] == marshal(e.pk)
    && "RowKey" in e.props && e.props["RowKey"] == marshal(e.rk)
  }

  /** What is stored is what the log says exists, under the ETag issued last. */
  ghost predicate Stands(marshal: string -> Json, flat: Flat, log: Log) {
    && (forall key :: key in flat <==> LastTag(log, key).Some?)
    && (forall key | key in flat :: LastTag(log, key) == Some(flat[key].etag) && WellKept(marshal, key, flat[key]))
  }

  ghost predicate IssuedBy(tag: string, clock: Instant) {
    exists t: Instant | NotAfter(t, clock) :: tag == EtagFor(t)
  }

  ghost predicate Inv(marshal: string -> Json, flat: Flat, log: Log, clock: Instant) {
    Stands(marshal, flat, log) && LegalLog(log) && forall a | a in log && Writes(a) :: IssuedBy(a.tag, clock)
  }

  // ---- Runs ----

  /** The clock is the time of the last write that stored something; no other call reads it. */
  datatype World = World(flat: Flat, log: Log, clock: Instant)

  datatype Step =
    | Inserts(pk: string, rk: string, props: Props, now: Instant)
    | Updates(pk: string, rk: string, props: Props, ifMatch: string, merge: bool, now: Instant)
    | Deletes(pk: string, rk: string, ifMatch: string)

  function Call(marshal: string -> Json, w: World, s: Step): (Flat, Result) {
    match s
    case Inserts(pk, rk, props, now) => Insert(marshal, w.flat, pk, rk, props, now)
    case Updates(pk, rk, props, ifMatch, merge, now) => Update(marshal, w.flat, pk, rk, props, ifMatch, merge, now)
    case Deletes(pk, rk, ifMatch) => Delete(w.flat, pk, rk, ifMatch)
  }

  function Logged(s: Step, r: Result): Log {
    var key := (s.pk, s.rk);
    if s.Inserts? && r.Stored? then [Inserted(key, r.e.etag)]
    else if s.Updates? && r.Stored? then [Updated(key, s.ifMatch, r.e.etag)]
    else if s.Deletes? && r.Gone? then [Deleted(key, s.ifMatch)]
    else []
  }

  function Next(marshal: string -> Json, w: World, s: Step): World {
    var (flat, r) := Call(marshal, w, s);
    World(flat, w.log + Logged(s, r), if r.Stored? && !s.Deletes? then s.now else w.clock)
  }

  /** A write is stored later than the one before it. */
  predicate Ticks(marshal: string -> Json, w: World, s: Step) {
    !s.Deletes? && Call(marshal, w, s).1.Stored? ==> Earlier(w.clock, s.now)
  }

  ghost predicate IsRun(marshal: string -> Json, w: World, steps: seq<Step>, w': World)
    decreases |steps|
  {
    if steps == [] then w == w'
    else Ticks(marshal, w, steps[0]) && IsRun(marshal, Next(marshal, w, steps[0]), steps[1..], w')
  }

  lemma TickKeeps(marshal: string -> Json, flat: Flat, log: Log, clock: Instant, now: Instant)
    requires Inv(marshal, flat, log, clock) && NotAfter(clock, now)
    ensures Inv(marshal, flat, log, now)
  {
    hide Stands, LegalLog, EtagFor;
    forall a | a in log && Writes(a) ensures IssuedBy(a.tag, now) {
      var t: Instant :| NotAfter(t, clock) && a.tag == EtagFor(t);
      EarlierTransitive(t, clock, now);
    }
  }

  lemma NewTag(marshal: string -> Json, flat: Flat, log: Log, clock: Instant, now: Instant)
    requires Inv(marshal, flat, log, clock) && Earlier(clock, now)
    ensures forall b | b in log && Writes(b) :: b.tag != EtagFor(now)
  {
    hide Stands, LegalLog, EtagFor;
    forall b | b in log && Writes(b) ensures b.tag != EtagFor(now) {
      var t: Instant :| NotAfter(t, clock) && b.tag == EtagFor(t);
      EtagInjective(t, now);
      EarlierTransitive(t, clock, now);
    }
  }

  lemma WriteKeeps(marshal: string -> Json, flat: Flat, log: Log, clock: Instant, key: Key, e: Entity, a: Action,
                   now: Instant)
    requires Inv(marshal, flat, log, clock) && Earlier(clock, now)
    requires Writes(a) && a.key == key && a.tag == e.etag == EtagFor(now) && WellKept(marshal, key, e)
    requires if a.Inserted? then key !in flat else Satisfies(LastTag(log, key), a.ifMatch)
    ensures Inv(marshal, flat[key := e], log + [a], now)
  {
    hide LegalLog, EtagFor, WellKept, LastTag;
    LogStep(log, a);
    NewTag(marshal, flat, log, clock, now);
    TickKeeps(marshal, flat, log, clock, now);
    assert Legal(log, a);
    assert IssuedBy(a.tag, now);
    assert Stands(marshal, flat[key := e], log + [a]);
    forall b | b in log + [a] && Writes(b) ensures IssuedBy(b.tag, now) {
      assert b in log || b == a;
    }
  }

  lemma EraseKeeps(marshal: string -> Json, flat: Flat, log: Log, clock: Instant, key: Key, ifMatch: string)
    requires Inv(marshal, flat, log, clock) && key in flat && Satisfies(LastTag(log, key), ifMatch)
    ensures Inv(marshal, flat - {key}, log + [Deleted(key, ifMatch)], clock)
  {
    hide LegalLog, EtagFor, WellKept, LastTag, IssuedBy;
    var a := Deleted(key, ifMatch);
    LogStep(log, a);
    forall b | b in log + [a] && Writes(b) ensures IssuedBy(b.tag, clock) {
      assert b in log;
    }
  }

  lemma BuiltWell(marshal: string -> Json, pk: string, rk: string, props: Props, now: Instant)
    ensures var e := Build(marshal, pk, rk, props, now); WellKept(marshal, (pk, rk), e) && e.etag == EtagFor(now)
  {
  }

  lemma InvStep(marshal: string -> Json, w: World, s: Step)
    requires Inv(marshal, w.flat, w.log, w.clock) && Ticks(marshal, w, s)
    ensures var w' := Next(marshal, w, s); Inv(marshal, w'.flat, w'.log, w'.clock)
  {
    hide Inv, Build, Merged, EtagFor;
    var key := (s.pk, s.rk);
    var (flat, r) := Call(marshal, w, s);
    LastIs(marshal, w, key);
    if Logged(s, r) == [] {
      assert w.log + [] == w.log;
    } else if s.Deletes? {
      EraseKeeps(marshal, w.flat, w.log, w.clock, key, s.ifMatch);
    } else {
      var props := if s.Updates? && s.merge && key in w.flat then Merged(w.flat[key].props, s.props) else s.props;
      BuiltWell(marshal, s.pk, s.rk, props, s.now);
      WriteKeeps(marshal, w.flat, w.log, w.clock, key, r.e, Logged(s, r)[0], s.now);
    }
  }

  lemma LastIs(marshal: string -> Json, w: World, key: Key)
    requires Inv(marshal, w.flat, w.log, w.clock)
    ensures LastTag(w.log, key) == if key in w.flat then Some(w.flat[key].etag) else None
  {
    hide LastTag, WellKept, LegalLog, IssuedBy;
  }

  lemma {:induction false} RunKeeps(marshal: string -> Json, w: World, steps: seq<Step>, w': World)
    requires Inv(marshal, w.flat, w.log, w.clock) && IsRun(marshal, w, steps, w')
    ensures Inv(marshal, w'.flat, w'.log, w'.clock)
    decreases |steps|
  {
    hide Inv, Next;
    if steps != [] {
      InvStep(marshal, w, steps[0]);
      RunKeeps(marshal, Next(marshal, w, steps[0]), steps[1..], w');
    }
  }

  ghost predicate Reachable(marshal: string -> Json, w: World) {
    exists steps, clock: Instant :: IsRun(marshal, World(map[], [], clock), steps, w)
  }

  lemma Safety(marshal: string -> Json, w: World)
    requires Reachable(marshal, w)
    ensures Inv(marshal, w.flat, w.log, w.clock)
  {
    hide IsRun, Inv;
    var steps, clock: Instant :| IsRun(marshal, World(map[], [], clock), steps, w);
    assert Inv(marshal, map[], [], clock) by { InvInitially(marshal, clock); }
    RunKeeps(marshal, World(map[], [], clock), steps, w);
  }

  lemma InvInitially(marshal: string -> Json, clock: Instant)
    ensures Inv(marshal, map[], [], clock)
  {
  }

  // ---- Compare and swap ----

  predicate Succeeded(r: Result) {
    r.Stored? || r.Gone?
  }

  /** An update or delete that names an ETag succeeds exactly when that is the ETag last issued for the entity. */
  lemma CompareAndSwap(marshal: string -> Json, w: World, s: Step)
    requires Reachable(marshal, w) && !s.Inserts? && Concrete(s.ifMatch)
    ensures var (r, last) := (Call(marshal, w, s).1, LastTag(w.log, (s.pk, s.rk)));
            && (Succeeded(r) <==> last == Some(s.ifMatch))
            && (r.EntityNotFound? <==> last.None?)
            && (r.ETagMismatch? <==> last.Some? && last.value != s.ifMatch)
  {
    hide Reachable, Inv, Build, Merged, LastTag;
    Safety(marshal, w);
    LastIs(marshal, w, (s.pk, s.rk));
  }

  lemma {:induction false} LegalAt(log: Log, j: nat)
    requires LegalLog(log) && j < |log|
    ensures LegalLog(log[..j]) && Legal(log[..j], log[j])
    decreases |log|
  {
    hide Legal;
    if j < |log| - 1 {
      LegalAt(log[..|log| - 1], j);
      assert log[..|log| - 1][..j] == log[..j];
    }
  }

  lemma {:induction false} TagOrigin(log: Log, key: Key) returns (i: nat)
    requires LastTag(log, key).Some?
    ensures i < |log| && Writes(log[i]) && log[i].key == key && log[i].tag == LastTag(log, key).value
    ensures forall k | i < k < |log| :: log[k].key != key
    decreases |log|
  {
    if log[|log| - 1].key == key {
      i := |log| - 1;
    } else {
      i := TagOrigin(log[..|log| - 1], key);
    }
  }

  /**
   A conditional success names the ETag some write issued for that entity, and nothing has happened to
   the entity since.
   */
  lemma NoWriteSince(marshal: string -> Json, w: World, j: nat) returns (i: nat)
    requires Reachable(marshal, w) && j < |w.log| && Conditional(w.log[j])
    ensures i < j && Writes(w.log[i]) && w.log[i].key == w.log[j].key && w.log[i].tag == w.log[j].ifMatch
    ensures forall k | i < k < j :: w.log[k].key != w.log[j].key
  {
    hide Reachable, LastTag, LegalLog;
    Safety(marshal, w);
    LegalAt(w.log, j);
    i := TagOrigin(w.log[..j], w.log[j].key);
  }

  lemma TagsDiffer(log: Log, i: nat, j: nat)
    requires LegalLog(log) && i < j < |log| && Writes(log[i]) && Writes(log[j])
    ensures log[i].tag != log[j].tag
  {
    hide LegalLog, LastTag;
    LegalAt(log, j);
    assert log[..j][i] in log[..j];
  }

  /** Of all updates and deletes that name the same ETag, over all entities of the table, at most one succeeds. */
  lemma AtMostOneSuccess(marshal: string -> Json, w: World, i: nat, j: nat)
    requires Reachable(marshal, w) && i < j < |w.log| && Conditional(w.log[i]) && Conditional(w.log[j])
    ensures w.log[i].ifMatch != w.log[j].ifMatch
  {
    hide Reachable, LegalLog, Stands;
    Safety(marshal, w);
    if w.log[i].ifMatch == w.log[j].ifMatch {
      var a := NoWriteSince(marshal, w, i);
      var b := NoWriteSince(marshal, w, j);
      if a < b {
        TagsDiffer(w.log, a, b);
      } else if b < a {
        TagsDiffer(w.log, b, a);
      }
    }
  }

  /**
   What the tick is for: after two writes a caller that holds the first one's ETag is refused exactly
   when the second came at another time; at the same time it overwrites the second unnoticed.
   */
  lemma SameTimeSameTag(marshal: string -> Json, flat: Flat, pk: string, rk: string, first: Props, second: Props,
                        third: Props, merge: bool, t1: Instant, t2: Instant, t3: Instant)
    ensures var (f1, r1) := Update(marshal, flat, pk, rk, first, "", merge, t1);
            var (f2, r2) := Update(marshal, f1, pk, rk, second, "", merge, t2);
            var (_, r3) := Update(marshal, f2, pk, rk, third, EtagFor(t1), merge, t3);
            && r1.Stored? && r2.Stored? && r1.e.etag == EtagFor(t1)
            && (r3.Stored? <==> t1 == t2) && (r3.ETagMismatch? <==> t1 != t2)
  {
    hide EtagFor;
    EtagInjective(t1, t2);
  }
}
