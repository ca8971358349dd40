/**
 When two pipelines mean the same: stages split, swapped and merged, with their errors.
 */
module KqlRewrites {
  import opened Kql
  import opened Operators
  import opened Sequences
  import opened StableSort
  import opened Strings

  // ---- What a predicate means ----

  /** All comparisons of the group before j hold. */
  ghost predicate HoldsUpTo(g: seq<Comparison>, row: Row, j: nat)
    requires j <= |g|
  {
    forall i | 0 <= i < j :: EvalComparison(g[i], row) == Holds(true)
  }

  /** A group is the "and" of its comparisons; it fails when one fails after all before it held. */
  lemma {:induction false} GroupMeaning(g: seq<Comparison>, row: Row)
    ensures EvalGroup(g, row) == Holds(true) <==> HoldsUpTo(g, row, |g|)
    ensures forall op :: EvalGroup(g, row) == Unsupported(op) <==>
              exists j | 0 <= j < |g| :: EvalComparison(g[j], row) == Unsupported(op) && HoldsUpTo(g, row, j)
  {
    hide EvalComparison;
    if g != [] {
      var rest := g[1..];
      GroupMeaning(rest, row);
      assert forall i | 0 <= i < |rest| :: rest[i] == g[i + 1];
      var first := EvalComparison(g[0], row);
      if first == Holds(true) {
        forall j | 0 <= j <= |rest| ensures HoldsUpTo(rest, row, j) <==> HoldsUpTo(g, row, j + 1) {
          assert forall i | 0 < i < |g| :: g[i] == rest[i - 1];
        }
        forall op | EvalGroup(g, row) == Unsupported(op)
          ensures exists j | 0 <= j < |g| :: EvalComparison(g[j], row) == Unsupported(op) && HoldsUpTo(g, row, j)
        {
          var j :| 0 <= j < |rest| && EvalComparison(rest[j], row) == Unsupported(op) && HoldsUpTo(rest, row, j);
          assert EvalComparison(g[j + 1], row) == Unsupported(op) && HoldsUpTo(g, row, j + 1);
        }
      } else if first.Unsupported? {
        assert HoldsUpTo(g, row, 0);
      }
    }
  }

  /** No group before i is satisfied or fails. */
  ghost predicate RefutedUpTo(p: Predicate, row: Row, i: nat)
    requires i <= |p|
  {
    forall k | 0 <= k < i :: EvalGroup(p[k], row) == Holds(false)
  }

  /** A predicate is the "or" of its groups, decided by the first one that is not refuted. */
  lemma {:induction false} PredicateMeaning(p: Predicate, row: Row, v: Verdict)
    requires v != Holds(false)
    ensures Eval(p, row) == v <==> exists i | 0 <= i < |p| :: EvalGroup(p[i], row) == v && RefutedUpTo(p, row, i)
  {
    hide EvalGroup;
    if p != [] {
      var rest := p[1..];
      PredicateMeaning(rest, row, v);
      assert forall i | 0 <= i < |rest| :: rest[i] == p[i + 1];
      if EvalGroup(p[0], row) == Holds(false) {
        forall i | 0 <= i <= |rest| ensures RefutedUpTo(rest, row, i) <==> RefutedUpTo(p, row, i + 1) {
          assert forall k | 0 < k < |p| :: p[k] == rest[k - 1];
        }
        if Eval(p, row) == v {
          var i :| 0 <= i < |rest| && EvalGroup(rest[i], row) == v && RefutedUpTo(rest, row, i);
          assert EvalGroup(p[i + 1], row) == v && RefutedUpTo(p, row, i + 1);
        }
      } else {
        assert RefutedUpTo(p, row, 0);
      }
    }
  }

  // ---- Where is a filter, or an error ----

  function Satisfies(p: Predicate): Row -> bool {
    row => Eval(p, row) == Holds(true)
  }

  ghost predicate Fails(p: Predicate, rows: seq<Row>) {
    exists row | row in rows :: Eval(p, row).Unsupported?
  }

  /**
   A where stage fails exactly when some row's evaluation fails, and otherwise keeps the rows that
   satisfy it, in order.
   */
  lemma {:induction false} WhereIsFilter(p: Predicate, rows: seq<Row>)
    ensures WhereRows(p, rows).Refused? <==> Fails(p, rows)
    ensures !Fails(p, rows) ==> WhereRows(p, rows) == Kept(Filter(Satisfies(p), rows))
  {
    hide Eval;
    if rows != [] {
      WhereIsFilter(p, rows[1..]);
      assert rows == [rows[0]] + rows[1..];
      FailsCons(p, rows);
    }
  }

  lemma FailsCons(p: Predicate, rows: seq<Row>)
    requires rows != []
    ensures Fails(p, rows) <==> Eval(p, rows[0]).Unsupported? || Fails(p, rows[1..])
  {
    hide Eval;
    if Fails(p, rows[1..]) {
      var row :| row in rows[1..] && Eval(p, row).Unsupported?;
      assert row in rows;
    }
    assert rows[0] in rows;
    forall row | row in rows ensures row == rows[0] || row in rows[1..] {
      assert rows == [rows[0]] + rows[1..];
    }
  }

  /** Both fail, or both give the same table. */
  predicate Agree(a: Result, b: Result) {
    (a.Err? && b.Err?) || a == b
  }

  lemma {:induction false} RunAppend(a: seq<Stage>, b: seq<Stage>, t: Table)
    ensures Run(a + b, t) == var r := Run(a, t); if r.Err? then r else Run(b, r.t)
    decreases |a|
  {
    hide Apply;
    if a == [] {
      assert a + b == b;
    } else {
      assert (a + b)[1..] == a[1..] + b;
      if Apply(a[0], t).Ok? {
        RunAppend(a[1..], b, Apply(a[0], t).t);
      }
    }
  }

  /** Stages that agree on the table that reaches them may replace each other inside any pipeline. */
  lemma Rewrite(pre: seq<Stage>, a: seq<Stage>, b: seq<Stage>, post: seq<Stage>, t: Table)
    requires Run(pre, t).Ok? ==> Agree(Run(a, Run(pre, t).t), Run(b, Run(pre, t).t))
    ensures Agree(Run(pre + a + post, t), Run(pre + b + post, t))
  {
    hide Run;
    RunAppend(pre + a, post, t);
    RunAppend(pre + b, post, t);
    RunAppend(pre, a, t);
    RunAppend(pre, b, t);
  }

  lemma RunTwo(a: Stage, b: Stage, t: Table)
    ensures Run([a], t) == Apply(a, t)
    ensures Run([a, b], t) == var r := Apply(a, t); if r.Err? then r else Apply(b, r.t)
  {
    hide Apply;
    assert [a][1..] == [] && [a, b][1..] == [b] && [b][1..] == [];
    var r := Apply(a, t);
    if r.Ok? {
      assert Run([b], r.t) == Apply(b, r.t);
    }
  }

  // ---- where p | where q is where p and q ----

  lemma {:induction false} GroupJoins(g: seq<Comparison>, h: seq<Comparison>, row: Row)
    ensures EvalGroup(g + h, row) == var v := EvalGroup(g, row); if v == Holds(true) then EvalGroup(h, row) else v
    decreases |g|
  {
    hide EvalComparison;
    if g == [] {
      assert g + h == h;
    } else {
      assert (g + h)[1..] == g[1..] + h;
      GroupJoins(g[1..], h, row);
    }
  }

  /** The comparison that can fail: an order on a boolean literal. It holds on no row. */
  predicate CanFail(c: Comparison) {
    c.lit.LBool? && c.op != Eq && c.op != Ne
  }

  function FailsWith(g: seq<Comparison>): CompareOp {
    if g == [] then Eq else if CanFail(g[0]) then g[0].op else FailsWith(g[1..])
  }

  /** A group that fails on some row holds on none, and always fails with the same operator. */
  lemma {:induction false} GroupFails(g: seq<Comparison>, row: Row, other: Row)
    requires EvalGroup(g, row).Unsupported?
    ensures EvalGroup(g, row).op == FailsWith(g)
    ensures EvalGroup(g, other) == Holds(false) || EvalGroup(g, other) == Unsupported(FailsWith(g))
    decreases |g|
  {
    if !CanFail(g[0]) {
      GroupFails(g[1..], row, other);
    }
  }

  lemma EvalOne(g: seq<Comparison>, row: Row)
    ensures Eval([g], row) == EvalGroup(g, row)
  {
    hide EvalGroup;
    assert [g][1..] == [];
    assert Eval([], row) == Holds(false);
  }

  /** When the first predicate fails nowhere. */
  lemma {:induction false} WhereTwice(g: seq<Comparison>, h: seq<Comparison>, rows: seq<Row>)
    requires !Fails([g], rows)
    ensures WhereRows([g], rows).Kept? && WhereRows([h], WhereRows([g], rows).rows) == WhereRows([g + h], rows)
    decreases |rows|
  {
    hide Eval, EvalGroup;
    if rows != [] {
      FailsCons([g], rows);
      WhereTwice(g, h, rows[1..]);
      EvalOne(g, rows[0]);
      EvalOne(h, rows[0]);
      EvalOne(g + h, rows[0]);
      GroupJoins(g, h, rows[0]);
      if EvalGroup(g, rows[0]) == Holds(true) {
        var kept := WhereRows([g], rows[1..]).rows;
        assert ([rows[0]] + kept)[1..] == kept;
      }
    }
  }

  /** When it fails on some row it holds on none, and the joined predicate fails the same way. */
  lemma {:induction false} WhereFails(g: seq<Comparison>, h: seq<Comparison>, bad: Row, rows: seq<Row>)
    requires EvalGroup(g, bad).Unsupported?
    ensures WhereRows([g + h], rows) == WhereRows([g], rows)
    ensures WhereRows([g], rows).Kept? ==> WhereRows([g], rows).rows == []
    decreases |rows|
  {
    hide Eval, EvalGroup;
    if rows != [] {
      WhereFails(g, h, bad, rows[1..]);
      GroupFails(g, bad, rows[0]);
      EvalOne(g, rows[0]);
      EvalOne(g + h, rows[0]);
      GroupJoins(g, h, rows[0]);
    }
  }

  /**
   Two where stages, each a conjunction, are one where stage with "and" between them:
   the same rows, or the same error.
   */
  lemma WhereWhereIsAnd(g: seq<Comparison>, h: seq<Comparison>, t: Table)
    ensures Run([Where([g]), Where([h])], t) == Run([Where([g + h])], t)
  {
    hide Run, Eval, EvalGroup, WhereRows;
    RunTwo(Where([g]), Where([h]), t);
    RunTwo(Where([g + h]), Where([h]), t);
    if Fails([g], t.rows) {
      var bad :| bad in t.rows && Eval([g], bad).Unsupported?;
      EvalOne(g, bad);
      WhereFails(g, h, bad, t.rows);
      WhereIsFilter([g], t.rows);
    } else {
      WhereTwice(g, h, t.rows);
    }
  }

  // ---- where | sort is sort | where ----

  ghost predicate Homogeneous(col: string, rows: seq<Row>) {
    (forall row | row in rows :: Field(row, col).Number?) || (forall row | row in rows :: Field(row, col).Text?)
  }

  /** The sort tells no two of the rows apart. */
  ghost predicate AllTied(col: string, rows: seq<Row>) {
    forall x, y | x in rows && y in rows :: CompareValues(Field(x, col), Field(y, col)) == 0
  }

  /**
   The comparison the sort uses is an order exactly on columns of only numbers, of only strings, or of
   nothing it compares.
   */
  lemma OrderExactly(col: string, desc: bool, rows: seq<Row>)
    ensures WeakOrder(Before(col, desc), rows) <==> Homogeneous(col, rows) || AllTied(col, rows)
  {
    hide Field, Less, WeakOrder, Homogeneous;
    if Homogeneous(col, rows) {
      HomogeneousOrder(col, desc, rows);
    } else if AllTied(col, rows) {
      TiedOrder(col, desc, rows);
    } else {
      var x, y :| x in rows && y in rows && CompareValues(Field(x, col), Field(y, col)) != 0;
      ComparedBothWays(Field(x, col), Field(y, col));
      if Before(col, desc)(x, y) {
        MixedNoOrder(col, desc, rows, x, y);
      } else {
        MixedNoOrder(col, desc, rows, y, x);
      }
    }
  }

  lemma ComparedBothWays(a: Value, b: Value)
    ensures CompareValues(a, b) == -CompareValues(b, a)
  {
    hide Less;
    if a.Text? && b.Text? {
      LessIsOrder(a.s, b.s, a.s);
    }
  }

  lemma TiedOrder(col: string, desc: bool, rows: seq<Row>)
    requires AllTied(col, rows)
    ensures WeakOrder(Before(col, desc), rows)
  {
    hide Field, CompareValues;
  }

  /** A row of another kind is tied with two rows that the sort tells apart. */
  lemma MixedNoOrder(col: string, desc: bool, rows: seq<Row>, x: Row, y: Row)
    requires x in rows && y in rows && Before(col, desc)(x, y) && !Homogeneous(col, rows)
    ensures !WeakOrder(Before(col, desc), rows)
  {
    hide Field, Less, WeakOrder;
    var a, b := Field(x, col), Field(y, col);
    if a.Number? && b.Number? {
      var z :| z in rows && !Field(z, col).Number?;
      NotWeak(Before(col, desc), rows, x, y, z);
    } else {
      var z :| z in rows && !Field(z, col).Text?;
      NotWeak(Before(col, desc), rows, x, y, z);
    }
  }

  lemma NotWeak(less: (Row, Row) -> bool, rows: seq<Row>, x: Row, y: Row, z: Row)
    requires x in rows && y in rows && z in rows && less(x, y) && Tied(less, y, z) && !less(x, z)
    ensures !WeakOrder(less, rows)
  {
  }

  /** On a column of numbers only, or of strings only, the comparison the sort uses is an order. */
  lemma HomogeneousOrder(col: string, desc: bool, rows: seq<Row>)
    requires Homogeneous(col, rows)
    ensures WeakOrder(Before(col, desc), rows)
  {
    hide Before, Field, WeakOrder;
    forall x, y, z | x in rows && y in rows && z in rows ensures OrderedTriple(Before(col, desc), x, y, z) {
      if Field(x, col).Number? && Field(y, col).Number? && Field(z, col).Number? {
        NumberTriple(col, desc, x, y, z);
      } else {
        TextTriple(col, desc, x, y, z);
      }
    }
    WeakFromTriples(Before(col, desc), rows);
  }

  predicate OrderedTriple(less: (Row, Row) -> bool, x: Row, y: Row, z: Row) {
    && !less(x, x)
    && (less(x, y) && less(y, z) ==> less(x, z))
    && (less(x, y) && Tied(less, y, z) ==> less(x, z))
    && (less(x, y) && Tied(less, x, z) ==> less(z, y))
  }

  lemma WeakFromTriples(less: (Row, Row) -> bool, rows: seq<Row>)
    requires forall x, y, z | x in rows && y in rows && z in rows :: OrderedTriple(less, x, y, z)
    ensures WeakOrder(less, rows)
  {
    forall x | x in rows ensures !less(x, x) {
      assert OrderedTriple(less, x, x, x);
    }
  }

  lemma NumberTriple(col: string, desc: bool, x: Row, y: Row, z: Row)
    requires Field(x, col).Number? && Field(y, col).Number? && Field(z, col).Number?
    ensures OrderedTriple(Before(col, desc), x, y, z)
  {
    hide Field;
  }

  lemma TextTriple(col: string, desc: bool, x: Row, y: Row, z: Row)
    requires Field(x, col).Text? && Field(y, col).Text? && Field(z, col).Text?
    ensures OrderedTriple(Before(col, desc), x, y, z)
  {
    hide Field, Less;
    var (a, b, c) := (Field(x, col).s, Field(y, col).s, Field(z, col).s);
    LessIsOrder(a, b, c);
    LessIsOrder(b, c, a);
    LessIsOrder(c, a, b);
    LessIsOrder(c, b, a);
    LessIsOrder(a, c, b);
  }

  lemma FailsSorted(p: Predicate, less: (Row, Row) -> bool, rows: seq<Row>)
    ensures Fails(p, Sort(less, rows)) <==> Fails(p, rows)
  {
    hide Eval, Sort;
    SortHolds(less, rows);
  }

  /**
   Filtering may come before or after a sort whose comparison is an order on the column: the same rows
   in the same order, or an error both times.
   */
  lemma WhereSortCommute(p: Predicate, col: string, desc: bool, t: Table)
    requires WeakOrder(Before(col, desc), t.rows)
    ensures Agree(Run([Where(p), SortBy(col, desc)], t), Run([SortBy(col, desc), Where(p)], t))
  {
    hide Run, Eval, WhereRows, Sort, Filter, Before, Fails;
    var less := Before(col, desc);
    RunTwo(Where(p), SortBy(col, desc), t);
    RunTwo(SortBy(col, desc), Where(p), t);
    WhereIsFilter(p, t.rows);
    WhereIsFilter(p, Sort(less, t.rows));
    FailsSorted(p, less, t.rows);
    SortFilter(less, Satisfies(p), t.rows);
  }

  /** A conjunction always fails with the same operator, whatever the order of the rows. */
  lemma {:induction false} GroupRefusal(g: seq<Comparison>, rows: seq<Row>)
    requires WhereRows([g], rows).Refused?
    ensures WhereRows([g], rows).op == FailsWith(g)
    decreases |rows|
  {
    hide Eval, EvalGroup;
    EvalOne(g, rows[0]);
    if EvalGroup(g, rows[0]).Unsupported? {
      GroupFails(g, rows[0], rows[0]);
    } else {
      GroupRefusal(g, rows[1..]);
    }
  }

  /** For a conjunction even the error is the same. */
  lemma ConjunctionSortCommute(g: seq<Comparison>, col: string, desc: bool, t: Table)
    requires WeakOrder(Before(col, desc), t.rows)
    ensures Run([Where([g]), SortBy(col, desc)], t) == Run([SortBy(col, desc), Where([g])], t)
  {
    hide Run, WhereRows, Sort, Before, WeakOrder;
    WhereSortCommute([g], col, desc, t);
    var less := Before(col, desc);
    RunTwo(Where([g]), SortBy(col, desc), t);
    RunTwo(SortBy(col, desc), Where([g]), t);
    if WhereRows([g], t.rows).Refused? {
      GroupRefusal(g, t.rows);
      GroupRefusal(g, Sort(less, t.rows));
    }
  }

  /** The operator of a refusal is that of a row whose evaluation fails. */
  lemma {:induction false} RefusalIsARow(p: Predicate, rows: seq<Row>) returns (row: Row)
    requires WhereRows(p, rows).Refused?
    ensures row in rows && Eval(p, row) == Unsupported(WhereRows(p, rows).op)
  {
    hide Eval;
    row := rows[0];
    if !Eval(p, row).Unsupported? {
      row := RefusalIsARow(p, rows[1..]);
      assert row in rows[1..];
    }
  }

  ghost predicate SameInAnyOrder(p: Predicate, rows: seq<Row>) {
    forall other | multiset(other) == multiset(rows) :: WhereRows(p, other) == WhereRows(p, rows)
  }

  ghost predicate OneOperator(p: Predicate, rows: seq<Row>) {
    forall x, y | x in rows && y in rows && Eval(p, x).Unsupported? && Eval(p, y).Unsupported? ::
      Eval(p, x) == Eval(p, y)
  }

  /**
   The rows in any order give the same error exactly when all rows whose evaluation fails fail with one
   operator.
   */
  lemma ErrorInAnyOrder(p: Predicate, rows: seq<Row>)
    requires Fails(p, rows)
    ensures SameInAnyOrder(p, rows) <==> OneOperator(p, rows)
  {
    hide WhereRows, Eval, Fails;
    if OneOperator(p, rows) {
      forall other | multiset(other) == multiset(rows) ensures WhereRows(p, other) == WhereRows(p, rows) {
        SameRefusal(p, rows, other);
      }
    }
    if SameInAnyOrder(p, rows) {
      forall x | x in rows && Eval(p, x).Unsupported? ensures WhereRows(p, rows) == Refused(Eval(p, x).op) {
        var other := BroughtFirst(rows, x);
        RefusedAtOnce(p, other);
      }
    }
  }

  lemma SameRefusal(p: Predicate, rows: seq<Row>, other: seq<Row>)
    requires Fails(p, rows) && OneOperator(p, rows) && multiset(other) == multiset(rows)
    ensures WhereRows(p, other) == WhereRows(p, rows)
  {
    hide WhereRows, Eval, Fails;
    SameFailures(p, rows, other);
    WhereIsFilter(p, rows);
    WhereIsFilter(p, other);
    var x := RefusalIsARow(p, rows);
    var y := RefusalIsARow(p, other);
    assert y in multiset(rows);
  }

  lemma SameFailures(p: Predicate, rows: seq<Row>, other: seq<Row>)
    requires Fails(p, rows) && multiset(other) == multiset(rows)
    ensures Fails(p, other)
  {
    hide Eval;
    var row :| row in rows && Eval(p, row).Unsupported?;
    assert row in multiset(other);
  }

  lemma RefusedAtOnce(p: Predicate, rows: seq<Row>)
    requires rows != [] && Eval(p, rows[0]).Unsupported?
    ensures WhereRows(p, rows) == Refused(Eval(p, rows[0]).op)
  {
    hide Eval;
  }

  lemma BroughtFirst<T>(s: seq<T>, x: T) returns (r: seq<T>)
    requires x in s
    ensures multiset(r) == multiset(s) && r != [] && r[0] == x
  {
    var i :| 0 <= i < |s| && s[i] == x;
    r := [x] + (s[..i] + s[i + 1..]);
    assert s == s[..i] + ([x] + s[i + 1..]);
  }

  /** Then even the error does not change when the filter moves across the sort. */
  lemma OneErrorSortCommute(p: Predicate, col: string, desc: bool, t: Table)
    requires WeakOrder(Before(col, desc), t.rows) && OneOperator(p, t.rows)
    ensures Run([Where(p), SortBy(col, desc)], t) == Run([SortBy(col, desc), Where(p)], t)
  {
    hide Run, WhereRows, Sort, Before, WeakOrder, OneOperator, Fails;
    var less := Before(col, desc);
    WhereSortCommute(p, col, desc, t);
    RunTwo(Where(p), SortBy(col, desc), t);
    RunTwo(SortBy(col, desc), Where(p), t);
    WhereIsFilter(p, t.rows);
    if Fails(p, t.rows) {
      SameRefusal(p, t.rows, Sort(less, t.rows));
    }
  }

  /** With "or" the operator in the error depends on which row is first. */
  lemma ErrorDependsOnOrder()
    ensures var p := [[Comparison("x", CompareOp.Lt, LBool(true))], [Comparison("y", CompareOp.Gt, LBool(true))]];
            var t := Table([], [map["x" := Bool(true), "n" := Number(2.0)], map["y" := Bool(true), "n" := Number(1.0)]]);
            && Run([Where(p), SortBy("n", false)], t) == Err(BadOperator(CompareOp.Lt))
            && Run([SortBy("n", false), Where(p)], t) == Err(BadOperator(CompareOp.Gt))
  {
    hide Run, Eval, EvalComparison, Before;
    var c, d := Comparison("x", CompareOp.Lt, LBool(true)), Comparison("y", CompareOp.Gt, LBool(true));
    var a, b: Row := map["x" := Bool(true), "n" := Number(2.0)], map["y" := Bool(true), "n" := Number(1.0)];
    TwoGroups(c, d, a);
    TwoGroups(c, d, b);
    FlagComparison(c, a);
    FlagComparison(c, b);
    FlagComparison(d, b);
    NumbersBefore("n", b, a);
    RefusalsDiffer([[c], [d]], "n", a, b);
  }

  lemma FlagComparison(c: Comparison, row: Row)
    requires CanFail(c)
    ensures EvalComparison(c, row) == if Field(row, c.column).Bool? then Unsupported(c.op) else Holds(false)
  {
  }

  lemma NumbersBefore(col: string, a: Row, b: Row)
    requires Field(a, col).Number? && Field(b, col).Number? && Field(a, col).n < Field(b, col).n
    ensures Before(col, false)(a, b)
  {
  }

  lemma RefusalsDiffer(p: Predicate, col: string, a: Row, b: Row)
    requires Eval(p, a).Unsupported? && Eval(p, b).Unsupported? && Before(col, false)(b, a)
    ensures var t := Table([], [a, b]);
            && Run([Where(p), SortBy(col, false)], t) == Err(BadOperator(Eval(p, a).op))
            && Run([SortBy(col, false), Where(p)], t) == Err(BadOperator(Eval(p, b).op))
  {
    hide Run, Eval, Before, Sort;
    var t := Table([], [a, b]);
    SortSwaps(Before(col, false), a, b);
    RunTwo(Where(p), SortBy(col, false), t);
    RunTwo(SortBy(col, false), Where(p), t);
  }

  lemma TwoGroups(c: Comparison, d: Comparison, row: Row)
    ensures Eval([[c], [d]], row) ==
            var v := EvalComparison(c, row); if v == Holds(false) then EvalComparison(d, row) else v
  {
    hide EvalComparison;
    assert [[c], [d]][1..] == [[d]];
    EvalOne([d], row);
    assert [c][1..] == [] && [d][1..] == [];
    assert EvalGroup([], row) == Holds(true);
  }

  lemma SortSwaps(less: (Row, Row) -> bool, a: Row, b: Row)
    requires less(b, a)
    ensures Sort(less, [a, b]) == [b, a]
  {
    hide Sort, Insert;
    assert [a, b][..0] == [] && [a, b][..1] == [a] && [a, b][..2] == [a, b];
    SortNothing(less);
    SortNext(less, [a, b], 0);
    SortNext(less, [a, b], 1);
    InsertStops(less, [], a);
    InsertBefore(less, a, b);
  }

  lemma InsertBefore(less: (Row, Row) -> bool, a: Row, b: Row)
    requires less(b, a)
    ensures Insert(less, [a], b) == [b, a] && [] + [a] == [a]
  {
    assert [a][..0] == [] && Insert(less, [], b) == [b];
  }

  /**
   On a column of unlike values the stages do not commute: a string between two numbers keeps them from
   being compared.
   */
  lemma MixedColumnDoesNotCommute()
    ensures var p := [[Comparison("n", CompareOp.Ne, LNumber(0.0))]];
            var a, b: Row := map["n" := Number(2.0)], map["n" := Number(1.0)];
            var t := Table([], [a, map["n" := Text("x")], b]);
            && Run([Where(p), SortBy("n", false)], t) == Ok(Table([], [b, a]))
            && Run([SortBy("n", false), Where(p)], t) == Ok(Table([], [a, b]))
  {
    hide Run, Eval, Before;
    var c := Comparison("n", CompareOp.Ne, LNumber(0.0));
    var a, m, b: Row := map["n" := Number(2.0)], map["n" := Text("x")], map["n" := Number(1.0)];
    OneComparison(c, a);
    OneComparison(c, m);
    OneComparison(c, b);
    NumbersBefore("n", b, a);
    UnlikeNotBefore("n", m, a);
    UnlikeNotBefore("n", b, m);
    MixedRuns([[c]], "n", a, m, b);
  }

  lemma UnlikeNotBefore(col: string, a: Row, b: Row)
    requires Field(a, col).Number? != Field(b, col).Number?
    ensures !Before(col, false)(a, b)
  {
  }

  lemma MixedRuns(p: Predicate, col: string, a: Row, m: Row, b: Row)
    requires Eval(p, a) == Eval(p, b) == Holds(true) && Eval(p, m) == Holds(false)
    requires Before(col, false)(b, a) && !Before(col, false)(m, a) && !Before(col, false)(b, m)
    ensures var t := Table([], [a, m, b]);
            && Run([Where(p), SortBy(col, false)], t) == Ok(Table([], [b, a]))
            && Run([SortBy(col, false), Where(p)], t) == Ok(Table([], [a, b]))
  {
    hide Run, Eval, Before, Sort;
    var t := Table([], [a, m, b]);
    RunTwo(Where(p), SortBy(col, false), t);
    RunTwo(SortBy(col, false), Where(p), t);
    SortSwaps(Before(col, false), a, b);
    SortStays(Before(col, false), a, m, b);
    KeptThree(p, a, m, b);
  }

  lemma KeptThree(p: Predicate, a: Row, m: Row, b: Row)
    requires Eval(p, a) == Eval(p, b) == Holds(true) && Eval(p, m) == Holds(false)
    ensures WhereRows(p, [a, m, b]) == Kept([a, b])
  {
    hide Eval;
    assert [a, m, b][1..] == [m, b] && [m, b][1..] == [b] && [b][1..] == [];
    assert WhereRows(p, []) == Kept([]);
    assert WhereRows(p, [b]) == Kept([b]);
    assert WhereRows(p, [m, b]) == Kept([b]);
    assert [a] + [b] == [a, b];
  }

  lemma OneComparison(c: Comparison, row: Row)
    ensures Eval([[c]], row) == EvalComparison(c, row)
  {
    hide EvalComparison;
    EvalOne([c], row);
    assert [c][1..] == [];
    assert EvalGroup([], row) == Holds(true);
  }

  lemma SortStays(less: (Row, Row) -> bool, a: Row, m: Row, b: Row)
    requires !less(m, a) && !less(b, m)
    ensures Sort(less, [a, m, b]) == [a, m, b]
  {
    hide Sort;
    assert [] + [a] == [a] && [a] + [m] == [a, m] && [a, m] + [b] == [a, m, b];
    SortNothing(less);
    SortAppends(less, [], a);
    SortAppends(less, [a], m);
    SortAppends(less, [a, m], b);
  }

  lemma SortAppends(less: (Row, Row) -> bool, s: seq<Row>, x: Row)
    requires Sort(less, s) == s && (s == [] || !less(x, s[|s| - 1]))
    ensures Sort(less, s + [x]) == s + [x]
  {
    hide Insert;
    assert (s + [x])[..|s|] == s;
    InsertStops(less, s, x);
  }

  // ---- project ----

  ghost predicate Names(p: Predicate, cols: seq<string>) {
    forall i, j | 0 <= i < |p| && 0 <= j < |p[i]| :: p[i][j].column in cols
  }

  lemma {:induction false} GroupProjected(g: seq<Comparison>, cols: seq<string>, row: Row)
    requires forall j | 0 <= j < |g| :: g[j].column in cols
    ensures EvalGroup(g, ProjectRow(cols, row)) == EvalGroup(g, row)
  {
    if g != [] {
      GroupProjected(g[1..], cols, row);
    }
  }

  lemma {:induction false} EvalProjected(p: Predicate, cols: seq<string>, row: Row)
    requires Names(p, cols)
    ensures Eval(p, ProjectRow(cols, row)) == Eval(p, row)
  {
    hide EvalGroup, ProjectRow;
    if p != [] {
      GroupProjected(p[0], cols, row);
      assert Names(p[1..], cols);
      EvalProjected(p[1..], cols, row);
    }
  }

  lemma {:induction false} WhereProjected(p: Predicate, cols: seq<string>, rows: seq<Row>)
    requires Names(p, cols)
    ensures WhereRows(p, ProjectRows(cols, rows)) ==
            var kept := WhereRows(p, rows); if kept.Refused? then kept else Kept(ProjectRows(cols, kept.rows))
  {
    hide Eval, ProjectRow, Names;
    if rows != [] {
      WhereProjected(p, cols, rows[1..]);
      EvalProjected(p, cols, rows[0]);
      var rest := ProjectRows(cols, rows[1..]);
      assert ([ProjectRow(cols, rows[0])] + rest)[1..] == rest;
      if WhereRows(p, rows[1..]).Kept? {
        var kept := WhereRows(p, rows[1..]).rows;
        assert ([rows[0]] + kept)[1..] == kept;
      }
    }
  }

  /** A where stage may move across a project that keeps the columns it names: the same table or both an error. */
  lemma WhereProjectCommute(p: Predicate, cols: seq<string>, t: Table)
    requires Names(p, cols)
    ensures Agree(Run([Project(cols), Where(p)], t), Run([Where(p), Project(cols)], t))
  {
    hide Run, WhereRows, ProjectRows;
    RunTwo(Project(cols), Where(p), t);
    RunTwo(Where(p), Project(cols), t);
    WhereProjected(p, cols, t.rows);
  }

  lemma {:induction false} ProjectSnoc(cols: seq<string>, rows: seq<Row>, row: Row)
    ensures ProjectRows(cols, rows + [row]) == ProjectRows(cols, rows) + [ProjectRow(cols, row)]
  {
    hide ProjectRow;
    if rows == [] {
      assert rows + [row] == [row] && [row][1..] == [];
    } else {
      assert (rows + [row])[1..] == rows[1..] + [row];
      ProjectSnoc(cols, rows[1..], row);
    }
  }

  lemma {:induction false} InsertProjected(cols: seq<string>, col: string, desc: bool, rows: seq<Row>, x: Row)
    requires col in cols
    ensures ProjectRows(cols, Insert(Before(col, desc), rows, x)) ==
            Insert(Before(col, desc), ProjectRows(cols, rows), ProjectRow(cols, x))
    decreases |rows|
  {
    hide Insert, ProjectRows, ProjectRow;
    var less := Before(col, desc);
    if rows == [] {
      assert ProjectRows(cols, []) == [] by { ProjectNothing(cols); }
      InsertStops(less, [], x);
      InsertStops(less, [], ProjectRow(cols, x));
      ProjectSnoc(cols, [], x);
    } else {
      var init, last := rows[..|rows| - 1], rows[|rows| - 1];
      assert rows == init + [last];
      ProjectSnoc(cols, init, last);
      BeforeProjected(cols, col, desc, x, last);
      var projected := ProjectRows(cols, rows);
      assert projected[..|projected| - 1] == ProjectRows(cols, init);
      assert projected[|projected| - 1] == ProjectRow(cols, last);
      if less(x, last) {
        InsertMoves(less, rows, x);
        InsertMoves(less, projected, ProjectRow(cols, x));
        InsertProjected(cols, col, desc, init, x);
        ProjectSnoc(cols, Insert(less, init, x), last);
      } else {
        InsertStops(less, rows, x);
        InsertStops(less, projected, ProjectRow(cols, x));
        ProjectSnoc(cols, rows, x);
      }
    }
  }

  lemma ProjectNothing(cols: seq<string>)
    ensures ProjectRows(cols, []) == []
  {
  }

  lemma BeforeProjected(cols: seq<string>, col: string, desc: bool, x: Row, y: Row)
    requires col in cols
    ensures Before(col, desc)(ProjectRow(cols, x), ProjectRow(cols, y)) == Before(col, desc)(x, y)
  {
  }

  lemma {:induction false} SortProjected(cols: seq<string>, col: string, desc: bool, rows: seq<Row>)
    requires col in cols
    ensures ProjectRows(cols, Sort(Before(col, desc), rows)) == Sort(Before(col, desc), ProjectRows(cols, rows))
    decreases |rows|
  {
    hide Insert, ProjectRow, Before;
    if rows != [] {
      var init, last := rows[..|rows| - 1], rows[|rows| - 1];
      assert rows == init + [last];
      ProjectSnoc(cols, init, last);
      SortProjected(cols, col, desc, init);
      InsertProjected(cols, col, desc, Sort(Before(col, desc), init), last);
      assert (ProjectRows(cols, init) + [ProjectRow(cols, last)])[..|ProjectRows(cols, init)|] == ProjectRows(cols, init);
    }
  }

  /** A sort may move across a project that keeps its column, on any rows: homogeneous or not. */
  lemma SortProjectCommute(cols: seq<string>, col: string, desc: bool, t: Table)
    requires col in cols
    ensures Run([SortBy(col, desc), Project(cols)], t) == Run([Project(cols), SortBy(col, desc)], t)
  {
    hide Run, Sort, ProjectRows;
    RunTwo(SortBy(col, desc), Project(cols), t);
    RunTwo(Project(cols), SortBy(col, desc), t);
    SortProjected(cols, col, desc, t.rows);
  }

  /** Two takes are one of the smaller number, and an error when either number is negative. */
  lemma TakeTakeIsLeast(m: int, n: int, t: Table)
    ensures Run([Take(m), Take(n)], t) == Run([Take(if m < n then m else n)], t)
  {
    hide Run;
    RunTwo(Take(m), Take(n), t);
    RunTwo(Take(if m < n then m else n), Take(n), t);
    if 0 <= n <= m < |t.rows| {
      assert t.rows[..m][..n] == t.rows[..n];
    }
  }

  // ---- Inside a pipeline ----

  /** Wherever it stands in a pipeline, a filter may be moved in front of a sort on a column the sort can order. */
  lemma FilterMovesUp(pre: seq<Stage>, p: Predicate, col: string, desc: bool, post: seq<Stage>, t: Table)
    requires Run(pre, t).Ok? ==> Homogeneous(col, Run(pre, t).t.rows) || AllTied(col, Run(pre, t).t.rows)
    ensures Agree(Run(pre + [SortBy(col, desc), Where(p)] + post, t), Run(pre + [Where(p), SortBy(col, desc)] + post, t))
  {
    hide Run, Homogeneous, AllTied, WeakOrder;
    if Run(pre, t).Ok? {
      OrderExactly(col, desc, Run(pre, t).t.rows);
      WhereSortCommute(p, col, desc, Run(pre, t).t);
    }
    Rewrite(pre, [SortBy(col, desc), Where(p)], [Where(p), SortBy(col, desc)], post, t);
  }
}
