/**
 Stable sorting: an insertion sort, what makes a sort stable, and why a stable sort of a sequence is unique.
 */
module StableSort {
  import opened Sequences

  /** Elements that neither precede nor follow each other are interchangeable everywhere in s. */
  ghost predicate WeakOrder<T>(less: (T, T) -> bool, s: seq<T>) {
    && (forall x | x in s :: !less(x, x))
    && (forall x, y, z | x in s && y in s && z in s && less(x, y) && less(y, z) :: less(x, z))
    && (forall x, y, z | x in s && y in s && z in s && less(x, y) && Tied(less, y, z) :: less(x, z))
    && (forall x, y, z | x in s && y in s && z in s && less(x, y) && Tied(less, x, z) :: less(z, y))
  }

  predicate Tied<T>(less: (T, T) -> bool, x: T, y: T) {
    !less(x, y) && !less(y, x)
  }

  function TiedWith<T>(less: (T, T) -> bool, x: T): T -> bool {
    y => Tied(less, x, y)
  }

  ghost predicate IsSorted<T>(less: (T, T) -> bool, s: seq<T>) {
    forall i, j | 0 <= i < j < |s| :: !less(s[j], s[i])
  }

  /** Moves x left past the elements it precedes. */
  function Insert<T>(less: (T, T) -> bool, s: seq<T>, x: T): (r: seq<T>)
    ensures multiset(r) == multiset(s) + multiset{x}
  {
    if s == [] || !less(x, s[|s| - 1]) then s + [x]
    else
      assert s == s[..|s| - 1] + [s[|s| - 1]];
      Insert(less, s[..|s| - 1], x) + [s[|s| - 1]]
  }

  function Sort<T>(less: (T, T) -> bool, s: seq<T>): (r: seq<T>)
    ensures multiset(r) == multiset(s)
  {
    if s == [] then []
    else
      assert s == s[..|s| - 1] + [s[|s| - 1]];
      Insert(less, Sort(less, s[..|s| - 1]), s[|s| - 1])
  }

  lemma SortHolds<T(!new)>(less: (T, T) -> bool, s: seq<T>)
    ensures forall x :: x in Sort(less, s) <==> x in s
  {
    forall x ensures x in Sort(less, s) <==> x in s {
      assert x in multiset(Sort(less, s)) <==> x in multiset(s);
    }
  }

  // ---- The sort is sorted and stable ----

  ghost predicate Within<T>(s: seq<T>, all: seq<T>) {
    forall x | x in s :: x in all
  }

  lemma {:induction false} InsertSorted<T>(less: (T, T) -> bool, all: seq<T>, s: seq<T>, x: T)
    requires WeakOrder(less, all) && Within(s, all) && x in all && IsSorted(less, s)
    ensures IsSorted(less, Insert(less, s, x))
    decreases |s|
  {
    hide IsSorted, WeakOrder;
    if s != [] {
      var init, last := s[..|s| - 1], s[|s| - 1];
      InitSorted(less, s);
      if less(x, last) {
        InsertSorted(less, all, init, x);
        var r := Insert(less, init, x);
        forall y | y in r ensures !less(last, y) {
          assert y in multiset(r);
          assert y == x || y in multiset(init);
          NotBefore(less, all, x, last);
        }
        SnocSorted(less, r, last);
      } else {
        forall y | y in s ensures !less(x, y) {
          StaysAfter(less, all, x, last, y);
        }
        SnocSorted(less, s, x);
      }
    } else {
      SnocSorted(less, [], x);
    }
  }

  lemma InitSorted<T>(less: (T, T) -> bool, s: seq<T>)
    requires IsSorted(less, s) && s != []
    ensures IsSorted(less, s[..|s| - 1])
    ensures forall i | 0 <= i < |s| - 1 :: !less(s[|s| - 1], s[i])
  {
  }

  lemma SnocSorted<T>(less: (T, T) -> bool, s: seq<T>, x: T)
    requires IsSorted(less, s) && forall y | y in s :: !less(x, y)
    ensures IsSorted(less, s + [x])
  {
    var r := s + [x];
    forall i, j | 0 <= i < j < |r| ensures !less(r[j], r[i]) {
      assert r[i] == s[i] && (j < |s| ==> r[j] == s[j]);
    }
  }

  lemma NotBefore<T>(less: (T, T) -> bool, all: seq<T>, x: T, y: T)
    requires WeakOrder(less, all) && x in all && y in all && less(x, y)
    ensures !less(y, x)
  {
  }

  /** What does not precede the last of a sorted sequence precedes none of it. */
  lemma StaysAfter<T>(less: (T, T) -> bool, all: seq<T>, x: T, last: T, y: T)
    requires WeakOrder(less, all) && x in all && y in all && last in all
    requires !less(x, last) && (y == last || !less(last, y))
    ensures !less(x, y)
  {
    assert less(last, x) || Tied(less, x, last);
  }

  lemma {:induction false} SortSorted<T>(less: (T, T) -> bool, all: seq<T>, s: seq<T>)
    requires WeakOrder(less, all) && Within(s, all)
    ensures IsSorted(less, Sort(less, s)) && Within(Sort(less, s), all)
    decreases |s|
  {
    forall x | x in Sort(less, s) ensures x in all {
      assert x in multiset(Sort(less, s));
    }
    if s != [] {
      SortSorted(less, all, s[..|s| - 1]);
      InsertSorted(less, all, Sort(less, s[..|s| - 1]), s[|s| - 1]);
    }
  }

  /** Inserting x keeps the order of what is tied with any y. */
  lemma {:induction false} InsertStable<T>(less: (T, T) -> bool, all: seq<T>, s: seq<T>, x: T, y: T)
    requires WeakOrder(less, all) && Within(s, all) && x in all && y in all
    ensures Filter(TiedWith(less, y), Insert(less, s, x)) == Filter(TiedWith(less, y), s + [x])
    decreases |s|
  {
    hide Filter;
    if s != [] && less(x, s[|s| - 1]) {
      var init, last := s[..|s| - 1], s[|s| - 1];
      assert s == init + [last];
      InsertStable(less, all, init, x, y);
      InsertSwaps(TiedWith(less, y), Insert(less, init, x), init, x, last);
    }
  }

  /** Where not both are kept, two neighbours may change places. */
  lemma InsertSwaps<T>(keep: T -> bool, r: seq<T>, init: seq<T>, x: T, last: T)
    requires Filter(keep, r) == Filter(keep, init + [x]) && !(keep(x) && keep(last))
    ensures Filter(keep, r + [last]) == Filter(keep, init + [last] + [x])
  {
    hide Filter;
    FilterSplit(keep, r, [last]);
    FilterSplit(keep, init, [x]);
    FilterSplit(keep, init + [last], [x]);
    FilterSplit(keep, init, [last]);
    FilterOne(keep, x);
    FilterOne(keep, last);
  }

  lemma {:induction false} SortStable<T>(less: (T, T) -> bool, all: seq<T>, s: seq<T>, y: T)
    requires WeakOrder(less, all) && Within(s, all) && y in all
    ensures Filter(TiedWith(less, y), Sort(less, s)) == Filter(TiedWith(less, y), s)
    decreases |s|
  {
    hide Filter, IsSorted;
    if s != [] {
      var init, last := s[..|s| - 1], s[|s| - 1];
      assert s == init + [last];
      SortStable(less, all, init, y);
      SortSorted(less, all, init);
      InsertStable(less, all, Sort(less, init), last, y);
      FilterSplit(TiedWith(less, y), Sort(less, init), [last]);
      FilterSplit(TiedWith(less, y), init, [last]);
    }
  }

  // ---- There is only one stable sort ----

  /** a and b are sorted and agree, for every element, on the order of what is tied with it. */
  ghost predicate Alike<T>(less: (T, T) -> bool, all: seq<T>, a: seq<T>, b: seq<T>) {
    && Within(a, all) && Within(b, all) && IsSorted(less, a) && IsSorted(less, b)
    && forall y | y in all :: Filter(TiedWith(less, y), a) == Filter(TiedWith(less, y), b)
  }

  lemma HeadPrecedes<T>(less: (T, T) -> bool, all: seq<T>, a: seq<T>, b: seq<T>)
    requires WeakOrder(less, all) && Alike(less, all, a, b) && a != []
    ensures b != [] && !less(a[0], b[0])
  {
    var tied := TiedWith(less, a[0]);
    assert a[0] in all && a[0] in a;
    FilterFacts(tied, a);
    assert a[0] in Filter(tied, a);
    FilterFacts(tied, b);
    assert a[0] in Filter(tied, b) && a[0] in b;
    var k :| 0 <= k < |b| && b[k] == a[0];
    assert k > 0 ==> !less(b[k], b[0]);
  }

  lemma TailsAlike<T>(less: (T, T) -> bool, all: seq<T>, a: seq<T>, b: seq<T>)
    requires Alike(less, all, a, b) && a != [] && b != [] && a[0] == b[0]
    ensures Alike(less, all, a[1..], b[1..])
  {
    hide Filter;
    assert a == [a[0]] + a[1..] && b == [b[0]] + b[1..];
    forall y | y in all ensures Filter(TiedWith(less, y), a[1..]) == Filter(TiedWith(less, y), b[1..]) {
      FilterCons(TiedWith(less, y), a[0], a[1..]);
      FilterCons(TiedWith(less, y), b[0], b[1..]);
      var head := if TiedWith(less, y)(a[0]) then [a[0]] else [];
      assert (head + Filter(TiedWith(less, y), a[1..]))[|head|..] == Filter(TiedWith(less, y), a[1..]);
      assert (head + Filter(TiedWith(less, y), b[1..]))[|head|..] == Filter(TiedWith(less, y), b[1..]);
    }
  }

  lemma HeadsEqual<T>(less: (T, T) -> bool, all: seq<T>, a: seq<T>, b: seq<T>)
    requires WeakOrder(less, all) && Alike(less, all, a, b) && a != [] && b != []
    requires Tied(less, a[0], b[0])
    ensures a[0] == b[0]
  {
    var tied := TiedWith(less, a[0]);
    assert a[0] in all && tied(a[0]) && tied(b[0]);
    assert Filter(tied, a)[0] == a[0] && Filter(tied, b)[0] == b[0];
  }

  /** Two stable sorts of the same elements are equal. */
  lemma {:induction false} StableSortUnique<T>(less: (T, T) -> bool, all: seq<T>, a: seq<T>, b: seq<T>)
    requires WeakOrder(less, all) && Alike(less, all, a, b)
    ensures a == b
    decreases |a|
  {
    hide WeakOrder, Alike;
    if a == [] {
      if b != [] {
        AlikeSymmetric(less, all, a, b);
        HeadPrecedes(less, all, b, a);
      }
    } else {
      HeadPrecedes(less, all, a, b);
      AlikeSymmetric(less, all, a, b);
      HeadPrecedes(less, all, b, a);
      HeadsEqual(less, all, a, b);
      TailsAlike(less, all, a, b);
      StableSortUnique(less, all, a[1..], b[1..]);
      assert a == [a[0]] + a[1..] && b == [b[0]] + b[1..];
    }
  }

  lemma AlikeSymmetric<T>(less: (T, T) -> bool, all: seq<T>, a: seq<T>, b: seq<T>)
    requires Alike(less, all, a, b)
    ensures Alike(less, all, b, a)
  {
  }

  // ---- Filtering and sorting commute ----

  lemma {:induction false} FilterCommutes<T>(p: T -> bool, q: T -> bool, s: seq<T>)
    ensures Filter(p, Filter(q, s)) == Filter(q, Filter(p, s))
  {
    hide Filter;
    if s == [] {
      FilterNothing(p);
      FilterNothing(q);
    } else {
      var x, rest := s[0], s[1..];
      assert s == [x] + rest;
      FilterCommutes(p, q, rest);
      FilterCons(p, x, rest);
      FilterCons(q, x, rest);
      FilterCons(p, x, Filter(q, rest));
      FilterCons(q, x, Filter(p, rest));
      assert [] + Filter(p, rest) == Filter(p, rest) && [] + Filter(q, rest) == Filter(q, rest);
      assert [] + Filter(p, Filter(q, rest)) == Filter(p, Filter(q, rest));
    }
  }

  lemma {:induction false} FilterSorted<T>(less: (T, T) -> bool, keep: T -> bool, s: seq<T>)
    requires IsSorted(less, s)
    ensures IsSorted(less, Filter(keep, s))
  {
    hide Filter;
    if s == [] {
      FilterNothing(keep);
    } else {
      var rest := s[1..];
      assert s == [s[0]] + rest;
      FilterCons(keep, s[0], rest);
      assert forall i | 0 <= i < |rest| :: rest[i] == s[i + 1];
      FilterSorted(less, keep, rest);
      FilterFacts(keep, rest);
      forall y | y in Filter(keep, rest) ensures !less(y, s[0]) {
        var k :| 0 <= k < |rest| && rest[k] == y;
      }
      ConsSorted(less, s[0], Filter(keep, rest));
      assert [] + Filter(keep, rest) == Filter(keep, rest);
    }
  }

  lemma ConsSorted<T>(less: (T, T) -> bool, x: T, s: seq<T>)
    requires IsSorted(less, s) && forall y | y in s :: !less(y, x)
    ensures IsSorted(less, [x] + s)
  {
    var r := [x] + s;
    forall i, j | 0 <= i < j < |r| ensures !less(r[j], r[i]) {
      assert r[j] == s[j - 1] && (i > 0 ==> r[i] == s[i - 1]);
    }
  }

  /** A stable sort may be done before or after a filter. */
  lemma SortFilter<T>(less: (T, T) -> bool, keep: T -> bool, s: seq<T>)
    requires WeakOrder(less, s)
    ensures Filter(keep, Sort(less, s)) == Sort(less, Filter(keep, s))
  {
    hide Filter, Sort, WeakOrder, IsSorted;
    var a, b := Filter(keep, Sort(less, s)), Sort(less, Filter(keep, s));
    FilterFacts(keep, s);
    FilterFacts(keep, Sort(less, s));
    SortSorted(less, s, s);
    SortSorted(less, s, Filter(keep, s));
    FilterSorted(less, keep, Sort(less, s));
    forall y | y in s ensures Filter(TiedWith(less, y), a) == Filter(TiedWith(less, y), b) {
      FilterCommutes(TiedWith(less, y), keep, Sort(less, s));
      FilterCommutes(TiedWith(less, y), keep, s);
      SortStable(less, s, s, y);
      SortStable(less, s, Filter(keep, s), y);
    }
    StableSortUnique(less, s, a, b);
  }
}
