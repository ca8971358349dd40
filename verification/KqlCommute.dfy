/** Exactly on which columns every filter may move across a sort. */
module KqlCommute {
  import opened Kql
  import opened KqlRewrites
  import opened Operators
  import opened Sequences
  import opened StableSort
  import opened Strings

  /** Keeps the rows with a number in the column, or those with a string. */
  function KindFilter(col: string, number: bool): Predicate {
    if number then
      [[Comparison(col, CompareOp.Ge, LNumber(0.0))], [Comparison(col, CompareOp.Lt, LNumber(0.0))]]
    else [[Comparison(col, CompareOp.Ge, LText(""))]]
  }

  predicate IsKind(v: Value, number: bool) {
    if number then v.Number? else v.Text?
  }

  lemma KeepsKind(col: string, number: bool, row: Row)
    ensures Eval(KindFilter(col, number), row) == Holds(IsKind(Field(row, col), number))
  {
    hide Eval, EvalGroup, Field;
    if number {
      var c, d := Comparison(col, CompareOp.Ge, LNumber(0.0)), Comparison(col, CompareOp.Lt, LNumber(0.0));
      TwoGroups(c, d, row);
    } else {
      var c := Comparison(col, CompareOp.Ge, LText(""));
      OneComparison(c, row);
      if Field(row, col).Text? { NothingBelow(Field(row, col).s); }
    }
  }

  lemma NothingBelow(s: string)
    ensures !Less(s, "")
  {
    assert Codes("") == [];
  }

  lemma KindsOrdered(a: Value, b: Value)
    ensures CompareValues(a, b) != 0 ==> (a.Number? && b.Number?) || (a.Text? && b.Text?)
  {
  }

  /** The sort of a sequence with one element more. */
  lemma SortSnoc(less: (Row, Row) -> bool, s: seq<Row>, x: Row)
    ensures Sort(less, s + [x]) == Insert(less, Sort(less, s), x)
  {
    assert (s + [x])[..|s|] == s;
  }

  lemma InsertLastOf(less: (Row, Row) -> bool, s: seq<Row>, x: Row)
    ensures var r := Insert(less, s, x);
            && r != []
            && if s == [] || !less(x, s[|s| - 1]) then r == s + [x] else r[|r| - 1] == s[|s| - 1]
  {
  }

  /** After a row of another kind the sort ends in a row of another kind. */
  lemma EndsUnlike(col: string, desc: bool, s: seq<Row>, z: Row, number: bool)
    requires !IsKind(Field(z, col), number)
    ensures var r := Sort(Before(col, desc), s + [z]); r != [] && !IsKind(Field(r[|r| - 1], col), number)
  {
    hide Sort, Insert, Field, CompareValues;
    var less := Before(col, desc);
    SortSnoc(less, s, z);
    var sorted := Sort(less, s);
    InsertLastOf(less, sorted, z);
    if sorted != [] {
      KindsOrdered(Field(z, col), Field(sorted[|sorted| - 1], col));
    }
  }

  /** One row put after two that it keeps apart: x precedes y in the order, z stands between. */
  lemma StaysBehind(col: string, desc: bool, rest: seq<Row>, x: Row, y: Row, z: Row, number: bool)
    requires y in rest && Before(col, desc)(x, y)
    requires IsKind(Field(x, col), number) && IsKind(Field(y, col), number) && !IsKind(Field(z, col), number)
    ensures var keep := Satisfies(KindFilter(col, number));
            !IsSorted(Before(col, desc), Filter(keep, Sort(Before(col, desc), rest + [z] + [x])))
  {
    hide Sort, Insert, Field, CompareValues, Filter, Eval, IsSorted, KindFilter;
    var less, keep := Before(col, desc), Satisfies(KindFilter(col, number));
    var front := Sort(less, rest + [z]);
    EndsUnlike(col, desc, rest, z, number);
    SortSnoc(less, rest + [z], x);
    KindsOrdered(Field(x, col), Field(front[|front| - 1], col));
    InsertLastOf(less, front, x);
    assert Sort(less, rest + [z] + [x]) == front + [x];
    FilterSplit(keep, front, [x]);
    FilterOne(keep, x);
    KeepsKind(col, number, x);
    KeepsKind(col, number, y);
    SortHolds(less, rest + [z]);
    FilterFacts(keep, front);
    assert y in Filter(keep, front);
    NotSorted(less, Filter(keep, front), x, y);
  }

  lemma NotSorted(less: (Row, Row) -> bool, s: seq<Row>, x: Row, y: Row)
    requires y in s && less(x, y)
    ensures !IsSorted(less, s + [x])
  {
    var i :| 0 <= i < |s| && s[i] == y;
    assert (s + [x])[i] == y && (s + [x])[|s|] == x;
  }

  /** What is left of the column after the filter is of one kind, and sorting it sorts it. */
  lemma KindSorted(col: string, desc: bool, rows: seq<Row>, number: bool)
    ensures var keep := Satisfies(KindFilter(col, number));
            IsSorted(Before(col, desc), Sort(Before(col, desc), Filter(keep, rows)))
  {
    hide Sort, Field, CompareValues, Filter, Eval, IsSorted, KindFilter, WeakOrder;
    var keep := Satisfies(KindFilter(col, number));
    var kept := Filter(keep, rows);
    FilterFacts(keep, rows);
    forall row | row in kept ensures IsKind(Field(row, col), number) { KeepsKind(col, number, row); }
    HomogeneousOrder(col, desc, kept);
    SortSorted(Before(col, desc), kept, kept);
  }

  lemma NeverFails(col: string, number: bool, rows: seq<Row>)
    ensures !Fails(KindFilter(col, number), rows)
  {
    hide Eval, KindFilter;
    forall row | row in rows ensures !Eval(KindFilter(col, number), row).Unsupported? { KeepsKind(col, number, row); }
  }

  lemma TwoOut<T>(s: seq<T>, x: T, z: T) returns (rest: seq<T>)
    requires x in s && z in s && x != z
    ensures multiset(rest + [z] + [x]) == multiset(s)
    ensures forall y | y in s && y != x && y != z :: y in rest
  {
    var a := BroughtFirst(s, x);
    assert a == [x] + a[1..];
    assert z in multiset(a);
    assert z in a[1..];
    var b := BroughtFirst(a[1..], z);
    assert b == [z] + b[1..];
    rest := b[1..];
    forall y | y in s && y != x && y != z ensures y in rest {
      assert y in multiset(a);
      assert y in a[1..];
      assert y in multiset(b);
    }
  }

  /** Rows of unlike kinds that the sort tells apart can be so ordered that some filter does not commute. */
  lemma MixedFails(col: string, desc: bool, columns: seq<string>, rows: seq<Row>, x: Row, y: Row, z: Row, number: bool)
    requires x in rows && y in rows && z in rows && Before(col, desc)(x, y)
    requires IsKind(Field(x, col), number) && IsKind(Field(y, col), number) && !IsKind(Field(z, col), number)
    ensures exists p, other :: multiset(other) == multiset(rows) && !Commutes(p, col, desc, Table(columns, other))
  {
    hide Sort, Field, Filter, Eval, IsSorted, KindFilter, WhereRows, Run, CompareValues, Fails;
    var less, p := Before(col, desc), KindFilter(col, number);
    NotItself(col, desc, x);
    var rest := TwoOut(rows, x, z);
    var other := rest + [z] + [x];
    var t := Table(columns, other);
    StaysBehind(col, desc, rest, x, y, z, number);
    KindSorted(col, desc, other, number);
    NeverFails(col, number, other);
    NeverFails(col, number, Sort(less, other));
    WhereIsFilter(p, other);
    WhereIsFilter(p, Sort(less, other));
    RunTwo(Where(p), SortBy(col, desc), t);
    RunTwo(SortBy(col, desc), Where(p), t);
    assert !Commutes(p, col, desc, t);
  }

  lemma NotItself(col: string, desc: bool, x: Row)
    ensures !Before(col, desc)(x, x)
  {
    hide Field;
    if Field(x, col).Text? { LessIsOrder(Field(x, col).s, Field(x, col).s, Field(x, col).s); }
  }

  predicate Commutes(p: Predicate, col: string, desc: bool, t: Table) {
    Agree(Run([Where(p), SortBy(col, desc)], t), Run([SortBy(col, desc), Where(p)], t))
  }

  ghost predicate AlwaysCommutes(col: string, desc: bool, columns: seq<string>, rows: seq<Row>) {
    forall p, other | multiset(other) == multiset(rows) :: Commutes(p, col, desc, Table(columns, other))
  }

  /**
   Every filter commutes with the sort on every order of the rows exactly when the column holds only
   numbers, only strings, or nothing the sort tells apart.
   */
  lemma CommutesExactly(col: string, desc: bool, columns: seq<string>, rows: seq<Row>)
    ensures AlwaysCommutes(col, desc, columns, rows) <==> Homogeneous(col, rows) || AllTied(col, rows)
  {
    hide Field, Run, CompareValues, WeakOrder;
    if Homogeneous(col, rows) || AllTied(col, rows) {
      forall p, other | multiset(other) == multiset(rows) ensures Commutes(p, col, desc, Table(columns, other)) {
        SameRows(col, rows, other);
        OrderExactly(col, desc, other);
        WhereSortCommute(p, col, desc, Table(columns, other));
      }
    } else {
      var a, b :| a in rows && b in rows && CompareValues(Field(a, col), Field(b, col)) != 0;
      ComparedBothWays(Field(a, col), Field(b, col));
      KindsOrdered(Field(a, col), Field(b, col));
      var number := Field(a, col).Number?;
      var z :| z in rows && !IsKind(Field(z, col), number);
      if Before(col, desc)(a, b) {
        MixedFails(col, desc, columns, rows, a, b, z, number);
      } else {
        MixedFails(col, desc, columns, rows, b, a, z, number);
      }
    }
  }

  lemma SameRows(col: string, rows: seq<Row>, other: seq<Row>)
    requires multiset(other) == multiset(rows) && (Homogeneous(col, rows) || AllTied(col, rows))
    ensures Homogeneous(col, other) || AllTied(col, other)
  {
    hide Field, CompareValues;
    forall row | row in other ensures row in rows { assert row in multiset(rows); }
  }
}
