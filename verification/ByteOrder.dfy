/** Byte-wise lexicographic order, the order of Go's string comparison. */
module ByteOrder {
  import opened Bytes

  predicate Lt(a: seq<int>, b: seq<int>) {
    b != [] && (a == [] || a[0] < b[0] || (a[0] == b[0] && Lt(a[1..], b[1..])))
  }

  predicate Le(a: seq<int>, b: seq<int>) {
    a == b || Lt(a, b)
  }

  lemma {:induction false} LtTransitive(a: seq<int>, b: seq<int>, c: seq<int>)
    requires Lt(a, b) && Lt(b, c)
    ensures Lt(a, c)
  {
    if a != [] && a[0] == b[0] == c[0] { LtTransitive(a[1..], b[1..], c[1..]); }
  }

  lemma {:induction false} LtIrreflexive(a: seq<int>)
    ensures !Lt(a, a)
  {
    if a != [] { LtIrreflexive(a[1..]); }
  }

  lemma {:induction false} LtTotal(a: seq<int>, b: seq<int>)
    ensures Lt(a, b) || a == b || Lt(b, a)
  {
    if a != [] && b != [] && a[0] == b[0] {
      LtTotal(a[1..], b[1..]);
      assert a == [a[0]] + a[1..] && b == [b[0]] + b[1..];
    }
  }

  lemma {:induction false} PrefixLe(p: bytes, a: bytes)
    requires p <= a
    ensures Le(p, a)
  {
    if p != [] {
      PrefixLe(p[1..], a[1..]);
      assert p == [p[0]] + p[1..] && a == [a[0]] + a[1..];
    }
  }

  /** Between a and b, a prefix of b that a does not have lies above a. */
  lemma {:induction false} PrefixBetween(a: bytes, b: bytes, p: bytes)
    requires Lt(a, b) && p <= b && !(p <= a)
    ensures Lt(a, p)
  {
    if a != [] && a[0] == b[0] {
      assert a == [a[0]] + a[1..] && p == [p[0]] + p[1..];
      PrefixBetween(a[1..], b[1..], p[1..]);
    }
  }

  /** Strictly increasing. */
  predicate Increasing(xs: seq<bytes>) {
    forall i, j | 0 <= i < j < |xs| :: Lt(xs[i], xs[j])
  }

  function Insert(xs: seq<bytes>, x: bytes): seq<bytes> {
    if xs == [] || Lt(xs[|xs| - 1], x) then xs + [x]
    else Insert(xs[..|xs| - 1], x) + [xs[|xs| - 1]]
  }

  /** Sorting distinct strings, one insertion at a time. */
  function Sort(xs: seq<bytes>): seq<bytes> {
    if xs == [] then [] else Insert(Sort(xs[..|xs| - 1]), xs[|xs| - 1])
  }

  lemma {:induction false} InsertElements(xs: seq<bytes>, x: bytes, y: bytes)
    ensures y in Insert(xs, x) <==> y in xs || y == x
  {
    if xs != [] && !Lt(xs[|xs| - 1], x) {
      InsertElements(xs[..|xs| - 1], x, y);
      assert xs == xs[..|xs| - 1] + [xs[|xs| - 1]];
    }
  }

  lemma {:induction false} InsertIncreasing(xs: seq<bytes>, x: bytes)
    requires Increasing(xs) && x !in xs
    ensures Increasing(Insert(xs, x))
  {
    if xs != [] {
      var k := |xs| - 1;
      var last := xs[k];
      if Lt(last, x) {
        forall i | 0 <= i < k ensures Lt(xs[i], x) { LtTransitive(xs[i], last, x); }
      } else {
        LtTotal(last, x);
        InsertIncreasing(xs[..k], x);
        forall y | y in Insert(xs[..k], x) ensures Lt(y, last) { InsertElements(xs[..k], x, y); }
      }
    }
  }

  lemma {:induction false} SortSorts(xs: seq<bytes>)
    requires forall i, j | 0 <= i < j < |xs| :: xs[i] != xs[j]
    ensures Increasing(Sort(xs))
    ensures forall y :: y in Sort(xs) <==> y in xs
  {
    if xs != [] {
      var k := |xs| - 1;
      SortSorts(xs[..k]);
      InsertIncreasing(Sort(xs[..k]), xs[k]);
      forall y ensures y in Sort(xs) <==> y in xs {
        InsertElements(Sort(xs[..k]), xs[k], y);
        assert xs == xs[..k] + [xs[k]];
      }
    }
  }

  lemma {:induction false} SortKeepsIncreasing(xs: seq<bytes>)
    requires Increasing(xs)
    ensures Sort(xs) == xs
  {
    if xs != [] {
      hide Lt;
      var k := |xs| - 1;
      SortKeepsIncreasing(xs[..k]);
      assert k > 0 ==> Lt(xs[..k][k - 1], xs[k]);
      assert xs == xs[..k] + [xs[k]];
    }
  }

  /** An increasing sequence is determined by its elements. */
  lemma {:induction false} IncreasingUnique(xs: seq<bytes>, ys: seq<bytes>)
    requires Increasing(xs) && Increasing(ys) && forall x :: x in xs <==> x in ys
    ensures xs == ys
  {
    if xs == [] {
      assert forall i | 0 <= i < |ys| :: ys[i] in ys;
    } else {
      assert ys != [] by { assert xs[0] in ys; }
      var x, y := xs[|xs| - 1], ys[|ys| - 1];
      assert x in ys && y in xs;
      LastGreatest(xs, y);
      LastGreatest(ys, x);
      if x != y { LtTransitive(x, y, x); LtIrreflexive(x); }
      InitElements(xs);
      InitElements(ys);
      var xs', ys' := xs[..|xs| - 1], ys[..|ys| - 1];
      forall z | z in xs' ensures z in ys' { assert z in xs && z in ys; }
      forall z | z in ys' ensures z in xs' { assert z in ys && z in xs; }
      IncreasingUnique(xs', ys');
      assert xs == xs[..|xs| - 1] + [x] && ys == ys[..|ys| - 1] + [y];
    }
  }

  lemma LastGreatest(xs: seq<bytes>, y: bytes)
    requires Increasing(xs) && y in xs
    ensures Le(y, xs[|xs| - 1])
  {
  }

  lemma InitElements(xs: seq<bytes>)
    requires Increasing(xs) && xs != []
    ensures forall z | z in xs[..|xs| - 1] :: z in xs && z != xs[|xs| - 1]
    ensures forall z | z in xs && z != xs[|xs| - 1] :: z in xs[..|xs| - 1]
  {
    LtIrreflexive(xs[|xs| - 1]);
    assert xs == xs[..|xs| - 1] + [xs[|xs| - 1]];
  }
}
