/** What each stage of a log query does to the rows, in terms of the values in them. */
module KqlMeaning {
  import opened Kql
  import opened KqlPrint
  import opened KqlQuotes
  import opened KqlRewrites
  import opened KqlText
  import opened KqlWords
  import opened Operators
  import opened Sequences
  import opened StableSort
  import opened Strings
  import opened Wrappers

  // ---- Sorting ----

  predicate Numbers(col: string, rows: seq<Row>) {
    forall i | 0 <= i < |rows| :: Field(rows[i], col).Number?
  }

  predicate Texts(col: string, rows: seq<Row>) {
    forall i | 0 <= i < |rows| :: Field(rows[i], col).Text?
  }

  lemma SortedRows(col: string, desc: bool, t: Table)
    requires Homogeneous(col, t.rows)
    ensures var r := Run([SortBy(col, desc)], t);
            && r.Ok? && r.t.columns == t.columns && multiset(r.t.rows) == multiset(t.rows)
            && (forall row :: row in r.t.rows <==> row in t.rows)
            && forall i, j | 0 <= i < j < |r.t.rows| :: !Before(col, desc)(r.t.rows[j], r.t.rows[i])
  {
    hide Sort, Before, WeakOrder, Homogeneous, Run;
    RunTwo(SortBy(col, desc), Count, t);
    HomogeneousOrder(col, desc, t.rows);
    SortSorted(Before(col, desc), t.rows, t.rows);
    SortHolds(Before(col, desc), t.rows);
  }

  /** A column of numbers is sorted up, or down when that is asked for; the rows are the same. */
  lemma SortOrdersNumbers(col: string, desc: bool, t: Table)
    requires Numbers(col, t.rows)
    ensures var r := Run([SortBy(col, desc)], t);
            && r.Ok? && r.t.columns == t.columns && multiset(r.t.rows) == multiset(t.rows) && Numbers(col, r.t.rows)
            && forall i, j | 0 <= i < j < |r.t.rows| ::
                 var (a, b) := (Field(r.t.rows[i], col).n, Field(r.t.rows[j], col).n); if desc then a >= b else a <= b
  {
    hide Run, Field;
    SortedRows(col, desc, t);
    var rows := Run([SortBy(col, desc)], t).t.rows;
    forall i | 0 <= i < |rows| ensures Field(rows[i], col).Number? { assert rows[i] in t.rows; }
  }

  /** So is a column of strings, in byte order. */
  lemma SortOrdersTexts(col: string, desc: bool, t: Table)
    requires Texts(col, t.rows)
    ensures var r := Run([SortBy(col, desc)], t);
            && r.Ok? && r.t.columns == t.columns && multiset(r.t.rows) == multiset(t.rows) && Texts(col, r.t.rows)
            && forall i, j | 0 <= i < j < |r.t.rows| ::
                 var (a, b) := (Field(r.t.rows[i], col).s, Field(r.t.rows[j], col).s);
                 if desc then !Less(a, b) else !Less(b, a)
  {
    hide Run, Field, Less;
    SortedRows(col, desc, t);
    var rows := Run([SortBy(col, desc)], t).t.rows;
    forall i | 0 <= i < |rows| ensures Field(rows[i], col).Text? { assert rows[i] in t.rows; }
    forall i, j | 0 <= i < j < |rows|
      ensures var (a, b) := (Field(rows[i], col).s, Field(rows[j], col).s); if desc then !Less(a, b) else !Less(b, a)
    {
      LessIsOrder(Field(rows[i], col).s, Field(rows[j], col).s, Field(rows[i], col).s);
      assert !Before(col, desc)(rows[j], rows[i]);
    }
  }

  // ---- Filtering by one comparison ----

  /** The value stands to the number as the operator's sign says. */
  predicate MeetsNumber(v: Value, sign: string, n: real) {
    && v.Number?
    && (sign == "==" ==> v.n == n) && (sign == "!=" ==> v.n != n)
    && (sign == "<" ==> v.n < n) && (sign == "<=" ==> v.n <= n)
    && (sign == ">" ==> v.n > n) && (sign == ">=" ==> v.n >= n)
  }

  predicate MeetsText(v: Value, sign: string, s: string) {
    && v.Text?
    && (sign == "==" ==> v.s == s) && (sign == "!=" ==> v.s != s)
    && (sign == "<" ==> Less(v.s, s)) && (sign == "<=" ==> !Less(s, v.s))
    && (sign == ">" ==> Less(s, v.s)) && (sign == ">=" ==> !Less(v.s, s))
  }

  const SIGNS: set<string> := {"==", "!=", "<", "<=", ">", ">="}

  /** The column, a sign and a literal. */
  function Sentence(col: string, sign: string, t: string): string {
    col + " " + sign + " " + t
  }

  lemma Signs(op: CompareOp)
    ensures OpText(op) in SIGNS
    ensures (OpText(op) == "==" <==> op == CompareOp.Eq) && (OpText(op) == "!=" <==> op == CompareOp.Ne)
    ensures (OpText(op) == "<" <==> op == CompareOp.Lt) && (OpText(op) == "<=" <==> op == CompareOp.Le)
    ensures (OpText(op) == ">" <==> op == CompareOp.Gt) && (OpText(op) == ">=" <==> op == CompareOp.Ge)
  {
  }

  lemma OpOfSign(sign: string) returns (op: CompareOp)
    requires sign in SIGNS
    ensures OpText(op) == sign
  {
    op := if sign == "==" then CompareOp.Eq else if sign == "!=" then CompareOp.Ne else if sign == "<" then CompareOp.Lt
          else if sign == "<=" then CompareOp.Le else if sign == ">" then CompareOp.Gt else CompareOp.Ge;
  }

  /** A where clause with one comparison, from its text: the rows it keeps and their order. */
  predicate Keeps(num: Numerals, text: string, t: Table, meets: Row -> bool) {
    var p := ParsePredicate(num, text);
    p.Some? && Run([Where(p.value)], t) == Ok(t.(rows := Filter(meets, t.rows)))
  }

  lemma KeepsOne(num: Numerals, show: Show, w: Written, t: Table, meets: Row -> bool)
    requires Writable(num, show, w) && Stands(show, w)
    requires forall row | row in t.rows :: EvalComparison(w.c, row) == Holds(meets(row))
    ensures Keeps(num, Sentence(w.c.column, OpText(w.c.op), LiteralText(show, w)), t, meets)
  {
    var p := [[w.c]];
    assert Sentence(w.c.column, OpText(w.c.op), LiteralText(show, w)) == ComparisonText(show, w);
    assert ClauseText(show, [[w]]) == ComparisonText(show, w);
    hide ParsePredicate, ClauseText, Stands, Writable, EvalComparison, Eval, Run, Filter, WhereRows;
    AloneExactly(num, show, w);
    forall row | row in t.rows ensures Eval(p, row) == Holds(meets(row)) { OneComparison(w.c, row); }
    WhereIsFilter(p, t.rows);
    FilterAlike(Satisfies(p), meets, t.rows);
    RunTwo(Where(p), Count, t);
  }

  lemma {:induction false} FilterAlike(f: Row -> bool, g: Row -> bool, rows: seq<Row>)
    requires forall row | row in rows :: f(row) == g(row)
    ensures Filter(f, rows) == Filter(g, rows)
  {
    if rows != [] {
      assert rows[0] in rows;
      FilterAlike(f, g, rows[1..]);
    }
  }

  /** A comparison with a number keeps the rows whose number stands to it as the sign says. */
  lemma NumberComparison(num: Numerals, show: Show, col: string, sign: string, n: real, t: Table)
    requires IsName(col) && sign in SIGNS
    requires IsName(show(n)) && Lower(show(n)) != "true" && Lower(show(n)) != "false" && num(show(n)) == Some(n)
    ensures Keeps(num, Sentence(col, sign, show(n)), t, row => MeetsNumber(Field(row, col), sign, n))
  {
    var op := OpOfSign(sign);
    var w := Written(Comparison(col, op, LNumber(n)), '"');
    NameStands(col, Rank(op) + 1);
    NameStands(show(n), Rank(op));
    Signs(op);
    hide IndexOperator, Fields, Field, Keeps, Sentence, OpText, IsTight, SingleSpaced, Uncut, Closes, IsName;
    var meets: Row -> bool := row => MeetsNumber(Field(row, col), sign, n);
    KeepsOne(num, show, w, t, meets);
  }

  /** A comparison with a string keeps the rows whose string does, in byte order. */
  lemma TextComparison(num: Numerals, show: Show, col: string, sign: string, s: string, q: char, t: Table)
    requires IsName(col) && sign in SIGNS && IsQuote(q) && q !in s && SingleSpaced(s)
    ensures Keeps(num, Sentence(col, sign, Quoted(q, s)), t, row => MeetsText(Field(row, col), sign, s))
  {
    var op := OpOfSign(sign);
    var w := Written(Comparison(col, op, LText(s)), q);
    NameStands(col, Rank(op) + 1);
    QuotedStands(q, s, Rank(op));
    Signs(op);
    hide IndexOperator, Fields, Field, Keeps, Sentence, OpText, IsTight, SingleSpaced, Uncut, Closes, IsName, Less, Quoted;
    var meets: Row -> bool := row => MeetsText(Field(row, col), sign, s);
    forall row | row in t.rows ensures EvalComparison(w.c, row) == Holds(meets(row)) {
      if Field(row, col).Text? { LessIsOrder(Field(row, col).s, s, Field(row, col).s); }
    }
    KeepsOne(num, show, w, t, meets);
  }

  /** Booleans are compared for equality; an order on one is an error as soon as a row has one in the column. */
  lemma BoolComparison(col: string, op: CompareOp, b: bool, t: Table)
    ensures var r := Run([Where([[Comparison(col, op, LBool(b))]])], t);
            && (op == CompareOp.Eq ==>
                  r == Ok(t.(rows := Filter((row: Row) => Field(row, col).Bool? && Field(row, col).b == b, t.rows))))
            && (op == CompareOp.Ne ==>
                  r == Ok(t.(rows := Filter((row: Row) => Field(row, col).Bool? && Field(row, col).b != b, t.rows))))
            && (op != CompareOp.Eq && op != CompareOp.Ne ==>
                  r == if exists row | row in t.rows :: Field(row, col).Bool? then Err(BadOperator(op))
                       else Ok(t.(rows := [])))
  {
    var c := Comparison(col, op, LBool(b));
    var p := [[c]];
    RunTwo(Where(p), Count, t);
    WhereIsFilter(p, t.rows);
    hide Run, Eval, Filter, WhereRows, Field;
    forall row ensures Eval(p, row) == EvalComparison(c, row) { OneComparison(c, row); }
    if op == CompareOp.Eq {
      FilterAlike(Satisfies(p), row => Field(row, col).Bool? && Field(row, col).b == b, t.rows);
    } else if op == CompareOp.Ne {
      FilterAlike(Satisfies(p), row => Field(row, col).Bool? && Field(row, col).b != b, t.rows);
    } else if Fails(p, t.rows) {
      var row := RefusalIsARow(p, t.rows);
    } else {
      FilterAlike(Satisfies(p), row => false, t.rows);
      NothingKept(t.rows);
    }
  }

  lemma {:induction false} NothingKept(rows: seq<Row>)
    ensures Filter(row => false, rows) == []
  {
    if rows != [] { NothingKept(rows[1..]); }
  }

  // ---- The other stages ----

  function CountIf(f: Row -> bool, rows: seq<Row>): nat {
    if rows == [] then 0 else CountIf(f, rows[..|rows| - 1]) + if f(rows[|rows| - 1]) then 1 else 0
  }

  lemma {:induction false} FilterCounts(f: Row -> bool, rows: seq<Row>)
    ensures |Filter(f, rows)| == CountIf(f, rows)
    decreases |rows|
  {
    hide Filter;
    if rows == [] {
      FilterNothing(f);
    } else {
      var k := |rows| - 1;
      FilterCounts(f, rows[..k]);
      FilterNext(f, rows, k);
      assert rows[..k + 1] == rows;
    }
  }

  /** Counting behind a filter gives one row with the number of rows that satisfy it. */
  lemma CountCounts(p: Predicate, t: Table)
    requires !Fails(p, t.rows)
    ensures Run([Where(p), Count], t) ==
            Ok(Table(["Count"], [map["Count" := Number(CountIf(Satisfies(p), t.rows) as real)]]))
  {
    hide Run, Eval, Filter, WhereRows, Fails;
    WhereIsFilter(p, t.rows);
    FilterCounts(Satisfies(p), t.rows);
    RunTwo(Where(p), Count, t);
  }

  /** A take keeps the first rows, and refuses a negative number. */
  lemma TakeKeepsFirst(n: int, t: Table)
    ensures var r := Run([Take(n)], t);
            if n < 0 then r == Err(NegativeCount)
            else
              && r.Ok? && r.t.columns == t.columns && r.t.rows <= t.rows
              && |r.t.rows| == if n < |t.rows| then n else |t.rows|
  {
    RunTwo(Take(n), Count, t);
  }

  /** A project leaves each row with exactly the named columns, Null where it had none; naming none is an error. */
  lemma ProjectKeepsColumns(cols: seq<string>, t: Table)
    ensures var r := Run([Project(cols)], t);
            if cols == [] then r == Err(NoColumns)
            else
              && r.Ok? && r.t.columns == cols && |r.t.rows| == |t.rows|
              && forall i | 0 <= i < |t.rows| ::
                   && (forall c :: c in r.t.rows[i] <==> c in cols)
                   && forall c | c in cols :: r.t.rows[i][c] == if c in t.rows[i] then t.rows[i][c] else Null
  {
    RunTwo(Project(cols), Count, t);
    ProjectedRows(cols, t.rows);
  }

  lemma {:induction false} ProjectedRows(cols: seq<string>, rows: seq<Row>)
    ensures |ProjectRows(cols, rows)| == |rows|
    ensures forall i | 0 <= i < |rows| :: ProjectRows(cols, rows)[i] == ProjectRow(cols, rows[i])
  {
    hide ProjectRow;
    if rows != [] { ProjectedRows(cols, rows[1..]); }
  }
}
