/** Listing a container: prefix filter, virtual directories, pages and the marker that resumes after one. */
module BlobListing {
  import opened Bytes
  import opened ByteOrder
  import opened Strings

  const MAX_LIST_RESULTS := 5000

  /** What a listing is asked for: names with this prefix, collapsed at this delimiter unless it is empty. */
  datatype Query = Query(prefix: bytes, delimiter: bytes)

  /** Where the delimiter first occurs behind the prefix, or -1. */
  function Cut(q: Query, name: bytes): int
    requires q.prefix <= name
  {
    if q.delimiter == [] then -1 else Index(name[|q.prefix|..], q.delimiter)
  }

  /** The entry a name is listed under: itself, or the virtual directory that holds it. */
  function KeyOf(q: Query, name: bytes): (key: bytes)
    requires q.prefix <= name
    ensures q.prefix <= key <= name
  {
    var cut := Cut(q, name);
    if cut < 0 then name
    else q.prefix + name[|q.prefix|..][..cut + |q.delimiter|]
  }

  predicate IsDirectory(q: Query, key: bytes) {
    q.prefix <= key && Cut(q, key) >= 0
  }

  // ---- Entries in name order ----

  /** An occurrence inside a prefix is an occurrence in the whole. */
  lemma OccursInPrefix(s: bytes, t: bytes, d: bytes, i: nat)
    requires s <= t && i + |d| <= |s|
    ensures OccursAt(s, d, i) == OccursAt(t, d, i)
  {
    assert s[i..i + |d|] == t[i..i + |d|];
  }

  /** A name that starts with another's virtual directory belongs to it. */
  lemma SameDirectory(q: Query, a: bytes, b: bytes)
    requires q.prefix <= a && q.prefix <= b && Cut(q, b) >= 0 && KeyOf(q, b) <= a
    ensures Cut(q, a) == Cut(q, b) && KeyOf(q, a) == KeyOf(q, b)
  {
    var cut, d := Cut(q, b), q.delimiter;
    var ra, rb := a[|q.prefix|..], b[|q.prefix|..];
    var dir := rb[..cut + |d|];
    assert dir <= ra by { assert KeyOf(q, b)[|q.prefix|..] == dir; }
    OccursInPrefix(dir, ra, d, cut);
    OccursInPrefix(dir, rb, d, cut);
    forall j | 0 <= j < cut ensures !OccursAt(ra, d, j) {
      OccursInPrefix(dir, ra, d, j);
      OccursInPrefix(dir, rb, d, j);
    }
    assert ra[..cut + |d|] == dir;
  }

  /** Collapsing keeps the order of names: a later name never comes under an earlier entry. */
  lemma KeyMonotone(q: Query, a: bytes, b: bytes)
    requires q.prefix <= a && q.prefix <= b && Lt(a, b)
    ensures Lt(KeyOf(q, a), KeyOf(q, b)) || (KeyOf(q, a) == KeyOf(q, b) && Cut(q, a) >= 0 && Cut(q, b) >= 0)
  {
    var ka, kb := KeyOf(q, a), KeyOf(q, b);
    if kb <= a {
      if Cut(q, b) >= 0 {
        SameDirectory(q, a, b);
      } else {
        PrefixLe(b, a);
        if b != a { LtTransitive(a, b, a); }
        LtIrreflexive(a);
      }
    } else {
      PrefixBetween(a, b, kb);
      PrefixLe(ka, a);
      if ka != a { LtTransitive(ka, a, kb); }
    }
  }

  /** A directory's key is a directory, under itself; any other key is not one. */
  lemma KeyKind(q: Query, name: bytes)
    requires q.prefix <= name
    ensures IsDirectory(q, KeyOf(q, name)) <==> Cut(q, name) >= 0
  {
    if Cut(q, name) >= 0 { SameDirectory(q, KeyOf(q, name), name); }
  }

  // ---- The whole listing, and a page of it ----

  ghost predicate IsNames(q: Query, blobs: set<bytes>, xs: seq<bytes>) {
    Increasing(xs) && AllMatch(q, xs) && forall n :: n in xs <==> n in blobs && q.prefix <= n
  }

  lemma {:induction false} NamesExist(q: Query, blobs: set<bytes>) returns (xs: seq<bytes>)
    ensures IsNames(q, blobs, xs)
    decreases |blobs|
  {
    if blobs == {} {
      xs := [];
    } else {
      var b :| b in blobs;
      xs := NamesExist(q, blobs - {b});
      if q.prefix <= b {
        InsertIncreasing(xs, b);
        forall n ensures n in Insert(xs, b) <==> n in blobs && q.prefix <= n { InsertElements(xs, b, n); }
        xs := Insert(xs, b);
        forall i | 0 <= i < |xs| ensures q.prefix <= xs[i] { assert xs[i] in xs; }
      }
    }
  }

  /** The matching blob names in byte order. */
  ghost function Names(q: Query, blobs: set<bytes>): (xs: seq<bytes>)
    ensures IsNames(q, blobs, xs)
  {
    assert exists xs :: IsNames(q, blobs, xs) by { var xs := NamesExist(q, blobs); }
    var xs :| IsNames(q, blobs, xs);
    xs
  }

  predicate AllMatch(q: Query, names: seq<bytes>) {
    forall i | 0 <= i < |names| :: q.prefix <= names[i]
  }

  /** The entries of names in order, each once. */
  function Collapse(q: Query, names: seq<bytes>): seq<bytes>
    requires AllMatch(q, names)
  {
    if names == [] then []
    else
      var before, key := Collapse(q, names[..|names| - 1]), KeyOf(q, names[|names| - 1]);
      if before != [] && before[|before| - 1] == key then before else before + [key]
  }

  /** The one-shot listing: every matching blob or virtual directory, in byte order. */
  ghost function Listing(q: Query, blobs: set<bytes>): seq<bytes> {
    Collapse(q, Names(q, blobs))
  }

  lemma IncreasingAppend(xs: seq<bytes>, x: bytes)
    requires Increasing(xs) && xs != [] && Lt(xs[|xs| - 1], x)
    ensures Increasing(xs + [x])
  {
    hide Lt;
    forall i | 0 <= i < |xs| ensures Lt(xs[i], x) {
      if i < |xs| - 1 { LtTransitive(xs[i], xs[|xs| - 1], x); }
    }
  }

  lemma {:induction false} CollapseIncreasing(q: Query, names: seq<bytes>)
    requires AllMatch(q, names) && Increasing(names)
    ensures var ks := Collapse(q, names);
            && Increasing(ks)
            && (ks == [] <==> names == [])
            && (names != [] ==> ks[|ks| - 1] == KeyOf(q, names[|names| - 1]))
    decreases |names|
  {
    if |names| > 1 {
      hide Lt, KeyOf, IsDirectory, Cut;
      var m := |names| - 1;
      var before, key := Collapse(q, names[..m]), KeyOf(q, names[m]);
      CollapseIncreasing(q, names[..m]);
      var last := before[|before| - 1];
      KeyMonotone(q, names[m - 1], names[m]);
      if last != key { IncreasingAppend(before, key); }
    }
  }

  ghost predicate HasEntry(q: Query, names: seq<bytes>, k: bytes)
    requires AllMatch(q, names)
  {
    exists i | 0 <= i < |names| :: KeyOf(q, names[i]) == k
  }

  lemma {:induction false} CollapseElements(q: Query, names: seq<bytes>)
    requires AllMatch(q, names)
    ensures forall i | 0 <= i < |names| :: KeyOf(q, names[i]) in Collapse(q, names)
    ensures forall k | k in Collapse(q, names) :: HasEntry(q, names, k)
    decreases |names|
  {
    if names != [] {
      hide KeyOf;
      var m := |names| - 1;
      CollapseElements(q, names[..m]);
      forall k | k in Collapse(q, names) ensures HasEntry(q, names, k) {
        if k != KeyOf(q, names[m]) {
          assert HasEntry(q, names[..m], k);
          var i :| 0 <= i < m && KeyOf(q, names[..m][i]) == k;
          assert names[i] == names[..m][i];
        }
      }
      forall i | 0 <= i < |names| ensures KeyOf(q, names[i]) in Collapse(q, names) {
        if i < m { assert names[..m][i] == names[i]; }
      }
    }
  }

  /** Some matching blob is listed under k. */
  ghost predicate Listed(q: Query, blobs: set<bytes>, k: bytes) {
    exists n :: n in blobs && q.prefix <= n && KeyOf(q, n) == k
  }

  /** The listing is increasing and holds exactly the entries of the matching blobs. */
  lemma ListingFacts(q: Query, blobs: set<bytes>)
    ensures Increasing(Listing(q, blobs))
    ensures forall k :: k in Listing(q, blobs) <==> Listed(q, blobs, k)
  {
    hide KeyOf, Collapse;
    var names := Names(q, blobs);
    CollapseIncreasing(q, names);
    CollapseElements(q, names);
    forall k ensures k in Listing(q, blobs) <==> Listed(q, blobs, k) {
      if k in Listing(q, blobs) {
        var i :| 0 <= i < |names| && KeyOf(q, names[i]) == k;
        assert names[i] in names;
      }
      if Listed(q, blobs, k) {
        var n :| n in blobs && q.prefix <= n && KeyOf(q, n) == k;
        assert n in names;
        var i :| 0 <= i < |names| && names[i] == n;
      }
    }
  }

  /** The entries above the resume point, all of them when there is none. */
  function Rest(entries: seq<bytes>, resume: bytes): (r: seq<bytes>)
    ensures |r| <= |entries| && r == entries[|entries| - |r|..]
  {
    if entries != [] && resume != [] && Le(entries[0], resume) then Rest(entries[1..], resume) else entries
  }

  function Min(a: nat, b: nat): nat { if a <= b then a else b }

  function Clamp(maxResults: int): (n: nat)
    ensures 1 <= n <= MAX_LIST_RESULTS
  {
    if maxResults <= 0 || maxResults > MAX_LIST_RESULTS then MAX_LIST_RESULTS else maxResults
  }

  /** One page: the first entries above the resume point, at most `max` of them. */
  function Page(entries: seq<bytes>, resume: bytes, max: nat): seq<bytes> {
    var rest := Rest(entries, resume);
    rest[..Min(|rest|, max)]
  }

  /** The marker of a page: its last entry when more remain, else empty. */
  function NextMarker(entries: seq<bytes>, resume: bytes, max: nat): bytes
    requires max > 0
  {
    if |Rest(entries, resume)| > max then Rest(entries, resume)[max - 1] else []
  }

  lemma {:induction false} RestFacts(entries: seq<bytes>, resume: bytes)
    requires Increasing(entries)
    ensures Increasing(Rest(entries, resume))
    ensures forall k :: k in Rest(entries, resume) <==> k in entries && (resume == [] || Lt(resume, k))
  {
    if entries != [] && resume != [] {
      assert entries == [entries[0]] + entries[1..];
      LtTotal(entries[0], resume);
      if Le(entries[0], resume) {
        RestFacts(entries[1..], resume);
        LtIrreflexive(resume);
        if Lt(resume, entries[0]) { LtTransitive(resume, entries[0], resume); }
      } else {
        forall k | k in entries ensures Lt(resume, k) {
          if k != entries[0] { LtTransitive(resume, entries[0], k); }
        }
      }
    }
  }

  lemma {:induction false} RestAppend(entries: seq<bytes>, key: bytes, resume: bytes)
    requires Increasing(entries + [key])
    ensures Rest(entries + [key], resume) ==
            Rest(entries, resume) + if resume == [] || !Le(key, resume) then [key] else []
  {
    if entries != [] && resume != [] && Le(entries[0], resume) {
      assert (entries + [key])[1..] == entries[1..] + [key];
      RestAppend(entries[1..], key, resume);
    } else if entries != [] && resume != [] {
      if Le(key, resume) {
        assert Lt((entries + [key])[0], (entries + [key])[|entries|]);
        if key != resume { LtTransitive(entries[0], key, resume); }
      }
    }
  }

  // ---- Following the markers over an unchanged container ----

  lemma {:induction false} RestOfMember(entries: seq<bytes>, j: nat)
    requires Increasing(entries) && j < |entries| && entries[j] != []
    ensures Rest(entries, entries[j]) == entries[j + 1..]
  {
    hide Lt;
    if j > 0 {
      assert Lt(entries[0], entries[j]);
      RestOfMember(entries[1..], j - 1);
      assert entries[1..][j - 1] == entries[j] && entries[1..][j..] == entries[j + 1..];
    } else if |entries| > 1 {
      NotLe(entries[0], entries[1]);
      assert entries[1..][0] == entries[1];
    }
  }

  lemma NotLe(a: bytes, b: bytes)
    requires Lt(a, b)
    ensures !Le(b, a)
  {
    LtIrreflexive(a);
    if Lt(b, a) { LtTransitive(a, b, a); }
  }

  predicate Named(entries: seq<bytes>) {
    forall i | 0 <= i < |entries| :: entries[i] != []
  }

  /** The next page starts right behind this one. */
  lemma RestAfterPage(entries: seq<bytes>, resume: bytes, max: nat)
    requires Increasing(entries) && Named(entries) && max > 0 && NextMarker(entries, resume, max) != []
    ensures Rest(entries, NextMarker(entries, resume, max)) == Rest(entries, resume)[max..]
  {
    var r := Rest(entries, resume);
    var k := |entries| - |r|;
    var j := k + max - 1;
    hide Rest, Increasing;
    assert r[max - 1] == entries[j];
    RestOfMember(entries, j);
    assert entries[k..][max..] == entries[j + 1..];
  }

  lemma MarkerMeansMore(entries: seq<bytes>, resume: bytes, max: nat)
    requires Named(entries) && max > 0
    ensures NextMarker(entries, resume, max) == [] <==> |Rest(entries, resume)| <= max
  {
    var r := Rest(entries, resume);
    if |r| > max { assert r[max - 1] == entries[|entries| - |r| + max - 1]; }
  }

  /** The pages a client gets by following each marker until it is empty. */
  ghost function Pages(entries: seq<bytes>, resume: bytes, max: nat): seq<seq<bytes>>
    requires Increasing(entries) && Named(entries) && max > 0
    decreases |Rest(entries, resume)|
  {
    var next := NextMarker(entries, resume, max);
    if next == [] then [Page(entries, resume, max)]
    else
      assert |Rest(entries, next)| < |Rest(entries, resume)| by { RestAfterPage(entries, resume, max); }
      [Page(entries, resume, max)] + Pages(entries, next, max)
  }

  function Flatten(pages: seq<seq<bytes>>): seq<bytes> {
    if pages == [] then [] else pages[0] + Flatten(pages[1..])
  }

  lemma PageOfRest(entries: seq<bytes>, resume: bytes, max: nat)
    ensures Page(entries, resume, max) ==
            if |Rest(entries, resume)| <= max then Rest(entries, resume) else Rest(entries, resume)[..max]
  {
    assert forall r: seq<bytes> {:trigger r[..|r|]} :: r[..|r|] == r;
  }

  lemma {:induction false} PagesFlatten(entries: seq<bytes>, resume: bytes, max: nat)
    requires Increasing(entries) && Named(entries) && max > 0
    ensures var ps := Pages(entries, resume, max);
            && Flatten(ps) == Rest(entries, resume)
            && (forall i | 0 <= i < |ps| - 1 :: |ps[i]| == max)
            && 0 < |ps| && |ps[|ps| - 1]| <= max
    decreases |Rest(entries, resume)|
  {
    hide Rest, Increasing, Named, NextMarker, Page;
    MarkerMeansMore(entries, resume, max);
    PageOfRest(entries, resume, max);
    var next, page, rest := NextMarker(entries, resume, max), Page(entries, resume, max), Rest(entries, resume);
    if next == [] {
      assert page + [] == rest;
      assert Flatten([page]) == page + Flatten([]);
    } else {
      RestAfterPage(entries, resume, max);
      PagesFlatten(entries, next, max);
      assert Pages(entries, resume, max) == [page] + Pages(entries, next, max);
      hide Pages;
      var ps := Pages(entries, next, max);
      assert ([page] + ps)[1..] == ps;
      assert rest == rest[..max] + rest[max..];
    }
  }

  lemma ListingNamed(q: Query, blobs: set<bytes>)
    requires [] !in blobs
    ensures Named(Listing(q, blobs))
  {
    ListingFacts(q, blobs);
    hide Listing;
    var ks := Listing(q, blobs);
    forall i | 0 <= i < |ks| ensures ks[i] != [] {
      assert ks[i] in ks && Listed(q, blobs, ks[i]);
    }
  }

  /**
   Following the markers from the start ends, and the pages put together are the one-shot
   listing: every entry once, in byte order, with every page full but the last.
   */
  lemma PagesAreTheListing(q: Query, blobs: set<bytes>, maxResults: int)
    requires [] !in blobs
    ensures Increasing(Listing(q, blobs)) && Named(Listing(q, blobs))
    ensures var ps := Pages(Listing(q, blobs), [], Clamp(maxResults));
            && Flatten(ps) == Listing(q, blobs)
            && (forall i | 0 <= i < |ps| - 1 :: |ps[i]| == if 1 <= maxResults <= 5000 then maxResults else 5000)
  {
    ListingFacts(q, blobs);
    ListingNamed(q, blobs);
    PagesFlatten(Listing(q, blobs), [], Clamp(maxResults));
  }

  // ---- Following them while blobs come and go ----

  /** The calls of one client: the blobs at each call, its page size, its page and the marker it was made with. */
  datatype Session = Session(blobs: seq<set<bytes>>, max: seq<nat>, pages: seq<seq<bytes>>, markers: seq<bytes>)

  ghost predicate IsSession(q: Query, s: Session) {
    && |s.max| == |s.pages| == |s.blobs| && |s.markers| == |s.blobs| + 1
    && s.markers[0] == []
    && (forall i | 0 < i < |s.blobs| :: s.markers[i] != [])
    && forall i | 0 <= i < |s.blobs| ::
         && [] !in s.blobs[i] && s.max[i] > 0
         && s.pages[i] == Page(Listing(q, s.blobs[i]), s.markers[i], s.max[i])
         && s.markers[i + 1] == NextMarker(Listing(q, s.blobs[i]), s.markers[i], s.max[i])
  }

  predicate Above(marker: bytes, k: bytes) {
    marker == [] || Lt(marker, k)
  }

  /** A page holds entries above its marker, none beyond the next marker, and misses none in between. */
  lemma PageFacts(entries: seq<bytes>, resume: bytes, max: nat)
    requires Increasing(entries) && Named(entries) && max > 0
    ensures var page, next := Page(entries, resume, max), NextMarker(entries, resume, max);
            && Increasing(page)
            && (forall x | x in page :: x in entries && Above(resume, x) && (next != [] ==> Le(x, next)))
            && (forall k | k in entries && Above(resume, k) && (next == [] || !Lt(next, k)) :: k in page)
            && (next != [] ==> Above(resume, next))
  {
    RestFacts(entries, resume);
    MarkerMeansMore(entries, resume, max);
    PageOfRest(entries, resume, max);
    var rest := Rest(entries, resume);
    FirstOf(rest, max);
    hide Rest, Lt, Page, Named, Increasing;
    if |rest| > max { assert NextMarker(entries, resume, max) == rest[max - 1]; }
  }

  /** The first max of an increasing sequence. */
  lemma FirstOf(rest: seq<bytes>, max: nat)
    requires Increasing(rest) && max > 0
    ensures |rest| > max ==>
              && Increasing(rest[..max])
              && rest[max - 1] in rest
              && (forall x | x in rest[..max] :: x in rest && Le(x, rest[max - 1]))
              && (forall k | k in rest && !Lt(rest[max - 1], k) :: k in rest[..max])
  {
    hide Lt;
    if |rest| > max {
      var page, next := rest[..max], rest[max - 1];
      forall x | x in page ensures x in rest && Le(x, next) {
        var i :| 0 <= i < max && page[i] == x;
        assert rest[i] == x;
      }
      forall k | k in rest && !Lt(next, k) ensures k in page {
        var i :| 0 <= i < |rest| && rest[i] == k;
        assert page[i] == k;
      }
    }
  }

  lemma SessionPage(q: Query, s: Session, i: nat)
    requires IsSession(q, s) && i < |s.blobs|
    ensures Increasing(Listing(q, s.blobs[i])) && Named(Listing(q, s.blobs[i]))
    ensures Increasing(s.pages[i])
    ensures forall x | x in s.pages[i] ::
              x in Listing(q, s.blobs[i]) && Above(s.markers[i], x) && (s.markers[i + 1] != [] ==> Le(x, s.markers[i + 1]))
    ensures forall k | k in Listing(q, s.blobs[i]) && Above(s.markers[i], k)
                       && (s.markers[i + 1] == [] || !Lt(s.markers[i + 1], k)) :: k in s.pages[i]
    ensures s.markers[i + 1] != [] ==> Above(s.markers[i], s.markers[i + 1])
  {
    ListingFacts(q, s.blobs[i]);
    ListingNamed(q, s.blobs[i]);
    PageFacts(Listing(q, s.blobs[i]), s.markers[i], s.max[i]);
  }

  lemma {:induction false} MarkersGrow(q: Query, s: Session, i: nat, j: nat)
    requires IsSession(q, s) && 0 < i <= j < |s.blobs|
    ensures Le(s.markers[i], s.markers[j])
    decreases j - i
  {
    hide Lt, Page, NextMarker;
    if i < j {
      SessionPage(q, s, i);
      MarkersGrow(q, s, i + 1, j);
      if s.markers[i + 1] != s.markers[j] { LtTransitive(s.markers[i], s.markers[i + 1], s.markers[j]); }
    }
  }

  /** However the container changes between calls, a later page only has later entries: nothing is listed twice. */
  lemma NothingTwice(q: Query, s: Session, i: nat, j: nat, x: bytes, y: bytes)
    requires IsSession(q, s) && i < j < |s.blobs| && x in s.pages[i] && y in s.pages[j]
    ensures Lt(x, y)
  {
    hide Lt, Page, NextMarker;
    SessionPage(q, s, i);
    SessionPage(q, s, j);
    MarkersGrow(q, s, i + 1, j);
    var m, n := s.markers[i + 1], s.markers[j];
    if m != n { LtTransitive(m, n, y); }
    if x != m { LtTransitive(x, m, y); }
  }

  lemma {:induction false} StillToCome(q: Query, s: Session, k: bytes, i: nat) returns (at: nat)
    requires IsSession(q, s) && i < |s.blobs| && s.markers[|s.blobs|] == []
    requires forall j | 0 <= j < |s.blobs| :: k in Listing(q, s.blobs[j])
    requires Above(s.markers[i], k)
    ensures i <= at < |s.blobs| && k in s.pages[at]
    decreases |s.blobs| - i
  {
    hide Lt, Page, NextMarker, Listing;
    SessionPage(q, s, i);
    if k in s.pages[i] {
      at := i;
    } else {
      at := StillToCome(q, s, k, i + 1);
    }
  }

  /** An entry that is there at every call of a complete session is listed, in exactly one page and once in it. */
  lemma NothingMissed(q: Query, s: Session, k: bytes) returns (at: nat)
    requires IsSession(q, s) && 0 < |s.blobs| && s.markers[|s.blobs|] == []
    requires forall j | 0 <= j < |s.blobs| :: Listed(q, s.blobs[j], k)
    ensures at < |s.blobs| && k in s.pages[at]
    ensures forall j | 0 <= j < |s.blobs| && j != at :: k !in s.pages[j]
    ensures forall a, b | 0 <= a < b < |s.pages[at]| :: s.pages[at][a] != s.pages[at][b]
  {
    hide Page, NextMarker, Listing, Listed;
    forall j | 0 <= j < |s.blobs| ensures k in Listing(q, s.blobs[j]) { ListingFacts(q, s.blobs[j]); }
    at := StillToCome(q, s, k, 0);
    LtIrreflexive(k);
    forall j | 0 <= j < |s.blobs| && j != at ensures k !in s.pages[j] {
      if k in s.pages[j] { NothingTwice(q, s, if j < at then j else at, if j < at then at else j, k, k); }
    }
    SessionPage(q, s, at);
    forall a, b | 0 <= a < b < |s.pages[at]| ensures s.pages[at][a] != s.pages[at][b] {
      LtIrreflexive(s.pages[at][a]);
    }
  }

  // ---- The code ----

  function Directories(q: Query, keys: seq<bytes>): seq<bytes> {
    if keys == [] then []
    else
      var k := keys[|keys| - 1];
      Directories(q, keys[..|keys| - 1]) + if IsDirectory(q, k) then [k] else []
  }

  function Blobs(q: Query, keys: seq<bytes>): seq<bytes> {
    if keys == [] then []
    else
      var k := keys[|keys| - 1];
      Blobs(q, keys[..|keys| - 1]) + if IsDirectory(q, k) then [] else [k]
  }

  /** The infos of the blobs named, in order. */
  ghost predicate InfosOf<V>(blobs: map<bytes, V>, names: seq<bytes>, infos: seq<V>) {
    |infos| == |names| && forall i | 0 <= i < |names| :: names[i] in blobs && infos[i] == blobs[names[i]]
  }

  /**
   What the loop knows once the entries of the names so far are ks: those of them on the
   page, the resume point they move, and the directories already met.
   */
  ghost predicate Scanned<V>(blobs: map<bytes, V>, q: Query, ks: seq<bytes>, resume: bytes,
                             after: bytes, seen: set<bytes>, infos: seq<V>, dirs: seq<bytes>, count: nat)
  {
    var out := Rest(ks, resume);
    && |out| == count
    && after == (if out == [] then resume else out[|out| - 1])
    && (forall k :: k in seen <==> k in ks && IsDirectory(q, k))
    && InfosOf(blobs, Blobs(q, out), infos)
    && dirs == Directories(q, out)
  }

  /** The entries of the first i names. */
  function Met(q: Query, names: seq<bytes>, i: nat): seq<bytes>
    requires AllMatch(q, names) && i <= |names|
  {
    Collapse(q, names[..i])
  }

  /** Name i falls under an entry already met, which is then a directory, or brings a new one. */
  lemma ScanName(q: Query, names: seq<bytes>, i: nat)
    requires AllMatch(q, names) && Increasing(names) && i < |names| && q.prefix <= names[i]
    ensures var ks, ks', key := Met(q, names, i), Met(q, names, i + 1), KeyOf(q, names[i]);
            && Increasing(ks') && ks' <= Collapse(q, names)
            && (if key in ks then IsDirectory(q, key) && ks' == ks else ks' == ks + [key])
            && (IsDirectory(q, key) <==> Cut(q, names[i]) >= 0)
  {
    var ks, key := Collapse(q, names[..i]), KeyOf(q, names[i]);
    IncreasingSlices(q, names, i);
    assert i > 0 ==> q.prefix <= names[i - 1];
    hide KeyOf, Cut, Lt, IsDirectory, Collapse, Increasing, AllMatch;
    CollapseOne(q, names, i);
    CollapseIncreasing(q, names[..i]);
    CollapseIncreasing(q, names[..i + 1]);
    CollapseGrows(q, names, i + 1);
    KeyKind(q, names[i]);
    if i > 0 {
      assert names[..i][i - 1] == names[i - 1];
      KeyMonotone(q, names[i - 1], names[i]);
      LtIrreflexive(key);
      if key in ks { LastOrLess(ks, key); }
    }
  }

  lemma IncreasingSlices(q: Query, names: seq<bytes>, i: nat)
    requires Increasing(names) && AllMatch(q, names) && i < |names|
    ensures Increasing(names[..i]) && Increasing(names[..i + 1]) && (i > 0 ==> Lt(names[i - 1], names[i]))
    ensures AllMatch(q, names[..i]) && AllMatch(q, names[..i + 1])
  {
    hide Lt;
  }

  lemma CollapseOne(q: Query, names: seq<bytes>, i: nat)
    requires AllMatch(q, names) && i < |names|
    ensures var ks, key := Collapse(q, names[..i]), KeyOf(q, names[i]);
            Collapse(q, names[..i + 1]) == if ks != [] && ks[|ks| - 1] == key then ks else ks + [key]
  {
    hide KeyOf;
    assert names[..i + 1][..i] == names[..i];
  }

  lemma LastOrLess(ks: seq<bytes>, key: bytes)
    requires Increasing(ks) && key in ks
    ensures key == ks[|ks| - 1] || !Lt(ks[|ks| - 1], key)
  {
    hide Lt;
    if key != ks[|ks| - 1] && Lt(ks[|ks| - 1], key) {
      LtTransitive(key, ks[|ks| - 1], key);
      LtIrreflexive(key);
    }
  }

  lemma {:induction false} CollapseGrows(q: Query, names: seq<bytes>, i: nat)
    requires AllMatch(q, names) && i <= |names|
    ensures Collapse(q, names[..i]) <= Collapse(q, names)
    decreases |names| - i
  {
    if i < |names| {
      assert names[..i + 1][..i] == names[..i];
      CollapseGrows(q, names, i + 1);
    } else {
      assert names[..i] == names;
    }
  }

  lemma {:induction false} RestGrows(xs: seq<bytes>, ys: seq<bytes>, resume: bytes)
    requires xs <= ys
    ensures Rest(xs, resume) <= Rest(ys, resume)
  {
    if xs != [] && resume != [] && Le(xs[0], resume) { RestGrows(xs[1..], ys[1..], resume); }
  }

  predicate Skipped(after: bytes, key: bytes) {
    after != [] && Le(key, after)
  }

  lemma ScanStart<V>(blobs: map<bytes, V>, q: Query, resume: bytes)
    ensures Scanned(blobs, q, [], resume, resume, {}, [], [], 0)
  {
  }

  /** The running resume point refuses a new entry exactly when the page's own resume point does. */
  lemma SkipsAlike(ks: seq<bytes>, key: bytes, resume: bytes)
    requires Increasing(ks + [key])
    ensures var out := Rest(ks, resume);
            var after := if out == [] then resume else out[|out| - 1];
            Rest(ks + [key], resume) == if Skipped(after, key) then out else out + [key]
  {
    hide Lt, Rest, Le, Increasing;
    var out := Rest(ks, resume);
    RestAppend(ks, key, resume);
    assert out + [] == out;
    if out != [] {
      var last := ks[|ks| - 1];
      RestLast(ks, key, resume);
      NotLe(last, key);
      if resume != [] {
        LtTransitive(resume, last, key);
        NotLe(resume, key);
      }
    }
  }

  lemma RestLast(ks: seq<bytes>, key: bytes, resume: bytes)
    requires Increasing(ks + [key]) && Rest(ks, resume) != []
    ensures var last := ks[|ks| - 1];
            && Rest(ks, resume)[|Rest(ks, resume)| - 1] == last
            && Lt(last, key) && (resume != [] ==> Lt(resume, last))
  {
    hide Lt;
    assert Lt((ks + [key])[|ks| - 1], (ks + [key])[|ks|]);
    assert forall i | 0 <= i < |ks| :: ks[i] == (ks + [key])[i];
    RestFacts(ks, resume);
    hide Increasing;
    assert Rest(ks, resume)[|Rest(ks, resume)| - 1] in Rest(ks, resume);
  }

  lemma ScanSkip<V>(blobs: map<bytes, V>, q: Query, ks: seq<bytes>, resume: bytes, after: bytes, seen: set<bytes>,
                    infos: seq<V>, dirs: seq<bytes>, count: nat, key: bytes)
    requires Scanned(blobs, q, ks, resume, after, seen, infos, dirs, count)
    requires Increasing(ks + [key]) && Skipped(after, key)
    ensures Scanned(blobs, q, ks + [key], resume, after, if IsDirectory(q, key) then seen + {key} else seen,
                    infos, dirs, count)
  {
    hide Rest, IsDirectory, Blobs, Directories, Lt, Skipped;
    SkipsAlike(ks, key, resume);
  }

  lemma ScanEmit<V>(blobs: map<bytes, V>, q: Query, ks: seq<bytes>, resume: bytes, after: bytes, seen: set<bytes>,
                    infos: seq<V>, dirs: seq<bytes>, count: nat, key: bytes, name: bytes)
    requires Scanned(blobs, q, ks, resume, after, seen, infos, dirs, count)
    requires Increasing(ks + [key]) && !Skipped(after, key)
    requires name in blobs && (!IsDirectory(q, key) ==> key == name)
    ensures var dir := IsDirectory(q, key);
            Scanned(blobs, q, ks + [key], resume, key, if dir then seen + {key} else seen,
                    if dir then infos else infos + [blobs[name]], if dir then dirs + [key] else dirs, count + 1)
    ensures Rest(ks + [key], resume) == Rest(ks, resume) + [key]
  {
    hide Rest, IsDirectory, Blobs, Directories, Lt, Skipped, InfosOf;
    SkipsAlike(ks, key, resume);
    PageGrows(blobs, q, Rest(ks, resume), key, infos, name);
    assert Directories(q, Rest(ks, resume)) + [] == dirs;
  }

  lemma PageGrows<V>(blobs: map<bytes, V>, q: Query, out: seq<bytes>, key: bytes, infos: seq<V>, name: bytes)
    requires InfosOf(blobs, Blobs(q, out), infos) && name in blobs && (!IsDirectory(q, key) ==> key == name)
    ensures Directories(q, out + [key]) == Directories(q, out) + if IsDirectory(q, key) then [key] else []
    ensures InfosOf(blobs, Blobs(q, out + [key]), if IsDirectory(q, key) then infos else infos + [blobs[name]])
  {
    hide IsDirectory;
    assert (out + [key])[..|out|] == out;
    assert Blobs(q, out) + [] == Blobs(q, out);
  }

  /** Once the page is full and another entry follows, the page and its marker are settled. */
  lemma PageIsFull(ks: seq<bytes>, key: bytes, all: seq<bytes>, resume: bytes, max: nat)
    requires max > 0 && |Rest(ks, resume)| == max && Rest(ks + [key], resume) == Rest(ks, resume) + [key]
    requires ks + [key] <= all
    ensures Page(all, resume, max) == Rest(ks, resume) && NextMarker(all, resume, max) == Rest(ks, resume)[max - 1]
  {
    RestGrows(ks + [key], all, resume);
    hide Rest;
    var r := Rest(all, resume);
    assert r[..max] == Rest(ks, resume);
  }

  lemma PageIsLast(all: seq<bytes>, resume: bytes, max: nat)
    requires max > 0 && |Rest(all, resume)| <= max
    ensures Page(all, resume, max) == Rest(all, resume) && NextMarker(all, resume, max) == []
  {
    hide Rest;
  }

  lemma {:induction false} DirectoriesIncreasing(q: Query, keys: seq<bytes>)
    requires Increasing(keys)
    ensures Increasing(Directories(q, keys))
    ensures forall k | k in Directories(q, keys) :: k in keys
  {
    hide IsDirectory, Lt;
    if keys != [] {
      var m := |keys| - 1;
      DirectoriesIncreasing(q, keys[..m]);
      assert forall k | k in keys[..m] :: Lt(k, keys[m]);
    }
  }

  method CollectNames<V>(blobs: map<bytes, V>, prefix: bytes) returns (names: seq<bytes>)
    ensures forall i, j | 0 <= i < j < |names| :: names[i] != names[j]
    ensures forall n :: n in names <==> n in blobs && prefix <= n
  {
    names := [];
    var todo := blobs.Keys;
    while todo != {}
      invariant todo <= blobs.Keys
      invariant forall i, j | 0 <= i < j < |names| :: names[i] != names[j]
      invariant forall n :: n in names <==> n in blobs && n !in todo && prefix <= n
      decreases todo
    {
      var name :| name in todo;
      todo := todo - {name};
      if prefix != [] && !(prefix <= name) {
        continue;
      }
      names := names + [name];
    }
  }

  /**
   One page of the listing of a container, from the decoded marker `resume`. Names are
   ranged over in any order and sorted first.
   */
  method ListBlobs<V>(blobs: map<bytes, V>, q: Query, maxResults: int, resume: bytes)
    returns (infos: seq<V>, prefixes: seq<bytes>, next: bytes)
    requires [] !in blobs
    ensures var page := Page(Listing(q, blobs.Keys), resume, Clamp(maxResults));
            InfosOf(blobs, Blobs(q, page), infos) && prefixes == Directories(q, page)
    ensures next == NextMarker(Listing(q, blobs.Keys), resume, Clamp(maxResults))
  {
    hide Page, InfosOf, NextMarker, Blobs, Directories, Collapse, Sort, KeyOf;
    var max := if maxResults <= 0 || maxResults > MAX_LIST_RESULTS then MAX_LIST_RESULTS else maxResults;
    var names := CollectNames(blobs, q.prefix);
    SortSorts(names);
    names := Sort(names);
    assert names == Names(q, blobs.Keys) by { IncreasingUnique(names, Names(q, blobs.Keys)); }
    NamesMatch(q, blobs.Keys);
    ListingFacts(q, blobs.Keys);
    ListingNamed(q, blobs.Keys);
    infos, prefixes, next := ScanNames(blobs, q, names, max, resume);
    PageFacts(Listing(q, blobs.Keys), resume, max);
    DirectoriesIncreasing(q, Page(Listing(q, blobs.Keys), resume, max));
    SortKeepsIncreasing(prefixes);
    prefixes := Sort(prefixes);
  }

  /** The loop over the sorted names. */
  method ScanNames<V>(blobs: map<bytes, V>, q: Query, names: seq<bytes>, max: nat, resume: bytes)
    returns (infos: seq<V>, prefixes: seq<bytes>, next: bytes)
    requires AllMatch(q, names) && Increasing(names) && max > 0
    requires forall i | 0 <= i < |names| :: names[i] in blobs && q.prefix <= names[i]
    ensures var page := Page(Collapse(q, names), resume, max);
            InfosOf(blobs, Blobs(q, page), infos) && prefixes == Directories(q, page)
    ensures next == NextMarker(Collapse(q, names), resume, max)
  {
    ghost var all := Collapse(q, names);
    MetEnds(q, names);
    hide Lt, Le, KeyOf, Cut, Collapse, Rest, IsDirectory, Page, NextMarker, Scanned, InfosOf, Met;
    hide Increasing, AllMatch, Blobs, Directories, Skipped, Index, OccursAt;
    infos, prefixes, next := [], [], [];
    var count, after, seen, i := 0, resume, {}, 0;
    ScanStart(blobs, q, resume);
    while i < |names|
      invariant 0 <= i <= |names| && count <= max
      invariant Scanned(blobs, q, Met(q, names, i), resume, after, seen, infos, prefixes, count)
    {
      ghost var ks := Met(q, names, i);
      var name := names[i];
      ScanName(q, names, i);
      SeenAreMet(blobs, q, ks, resume, after, seen, infos, prefixes, count, KeyOf(q, name));
      WholeName(q, name);
      var key, isPrefix := name, false;
      var cut := Cut(q, name);
      if cut >= 0 {
        key, isPrefix := KeyOf(q, name), true;
        if key in seen {
          i := i + 1;
          continue;
        }
      }
      if Skipped(after, key) {
        ScanSkip(blobs, q, ks, resume, after, seen, infos, prefixes, count, key);
        if isPrefix {
          seen := seen + {key};
        }
        i := i + 1;
        continue;
      }
      ScanEmit(blobs, q, ks, resume, after, seen, infos, prefixes, count, key, name);
      if count >= max {
        FullAfter(blobs, q, ks, resume, after, seen, infos, prefixes, count);
        PageIsFull(ks, key, all, resume, max);
        next := after;
        break;
      }
      if isPrefix {
        seen := seen + {key};
        prefixes := prefixes + [key];
      } else {
        infos := infos + [blobs[name]];
      }
      count := count + 1;
      after := key;
      i := i + 1;
    }
    FullAfter(blobs, q, Met(q, names, i), resume, after, seen, infos, prefixes, count);
    if i == |names| {
      PageIsLast(all, resume, max);
    }
  }

  lemma MetEnds(q: Query, names: seq<bytes>)
    requires AllMatch(q, names)
    ensures Met(q, names, 0) == [] && Met(q, names, |names|) == Collapse(q, names)
  {
    assert names[..|names|] == names;
  }

  lemma NamesMatch(q: Query, blobs: set<bytes>)
    ensures var names := Names(q, blobs);
            && AllMatch(q, names) && Increasing(names)
            && forall i | 0 <= i < |names| :: names[i] in blobs && q.prefix <= names[i]
  {
    var names := Names(q, blobs);
    assert forall i | 0 <= i < |names| :: names[i] in names;
  }

  lemma WholeName(q: Query, name: bytes)
    requires q.prefix <= name
    ensures Cut(q, name) < 0 ==> KeyOf(q, name) == name
  {
  }

  lemma SeenAreMet<V>(blobs: map<bytes, V>, q: Query, ks: seq<bytes>, resume: bytes, after: bytes, seen: set<bytes>,
                      infos: seq<V>, dirs: seq<bytes>, count: nat, key: bytes)
    requires Scanned(blobs, q, ks, resume, after, seen, infos, dirs, count)
    ensures key in seen <==> key in ks && IsDirectory(q, key)
  {
  }

  /** What the outputs are in terms of the entries met. */
  lemma FullAfter<V>(blobs: map<bytes, V>, q: Query, ks: seq<bytes>, resume: bytes, after: bytes, seen: set<bytes>,
                     infos: seq<V>, dirs: seq<bytes>, count: nat)
    requires Scanned(blobs, q, ks, resume, after, seen, infos, dirs, count)
    ensures |Rest(ks, resume)| == count && (count > 0 ==> after == Rest(ks, resume)[count - 1])
    ensures InfosOf(blobs, Blobs(q, Rest(ks, resume)), infos) && dirs == Directories(q, Rest(ks, resume))
  {
  }
}
