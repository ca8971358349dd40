/**
 Log queries: a pipeline of parsed stages over rows of JSON values.
 */
module Kql {
  import opened Operators
  import opened StableSort
  import opened Strings

  /** A JSON value; `Composite` is an array or an object. */
  datatype Value = Null | Bool(b: bool) | Number(n: real) | Text(s: string) | Composite(json: string)

  type Row = map<string, Value>

  datatype Literal = LText(s: string) | LNumber(n: real) | LBool(b: bool)

  datatype Comparison = Comparison(column: string, op: CompareOp, lit: Literal)

  /** Satisfied when all comparisons of some group are. */
  type Predicate = seq<seq<Comparison>>

  datatype Verdict = Holds(b: bool) | Unsupported(op: CompareOp)

  datatype Table = Table(columns: seq<string>, rows: seq<Row>)

  datatype Error = BadOperator(op: CompareOp) | NoColumns | NegativeCount

  datatype Result = Ok(t: Table) | Err(e: Error)

  datatype Stage =
    | Where(p: Predicate)
    | Project(cols: seq<string>)
    | Take(n: int)
    | Count
    | SortBy(col: string, desc: bool)

  // ---- Evaluation of one row ----

  function Field(row: Row, col: string): Value {
    if col in row then row[col] else Null
  }

  function EvalComparison(c: Comparison, row: Row): Verdict {
    var val := Field(row, c.column);
    match c.lit
    case LBool(b) =>
      if !val.Bool? then Holds(false)
      else if c.op == Eq then Holds(val.b == b)
      else if c.op == Ne then Holds(val.b != b)
      else Unsupported(c.op)
    case LNumber(n) => Holds(val.Number? && NumericOp(c.op, val.n, n))
    case LText(s) => Holds(val.Text? && StringOp(c.op, val.s, s))
  }

  function EvalGroup(g: seq<Comparison>, row: Row): Verdict {
    if g == [] then Holds(true)
    else
      var v := EvalComparison(g[0], row);
      if v == Holds(true) then EvalGroup(g[1..], row) else v
  }

  function Eval(p: Predicate, row: Row): Verdict {
    if p == [] then Holds(false)
    else
      var v := EvalGroup(p[0], row);
      if v == Holds(false) then Eval(p[1..], row) else v
  }

  /** Numbers and strings have their order; values of unlike kinds, and of other kinds, count as equal. */
  function CompareValues(a: Value, b: Value): int {
    if a.Number? && b.Number? then (if a.n < b.n then -1 else if a.n > b.n then 1 else 0)
    else if a.Text? && b.Text? then (if Less(a.s, b.s) then -1 else if Less(b.s, a.s) then 1 else 0)
    else 0
  }

  function Before(col: string, desc: bool): (Row, Row) -> bool {
    (a: Row, b: Row) =>
      var c := CompareValues(Field(a, col), Field(b, col));
      if desc then c > 0 else c < 0
  }

  // ---- Stages ----

  datatype Kept = Kept(rows: seq<Row>) | Refused(op: CompareOp)

  /** The rows that satisfy p, or the operator the first evaluation that fails fails with. */
  function WhereRows(p: Predicate, rows: seq<Row>): Kept {
    if rows == [] then Kept([])
    else
      var v := Eval(p, rows[0]);
      if v.Unsupported? then Refused(v.op)
      else
        var rest := WhereRows(p, rows[1..]);
        if rest.Refused? || !v.b then rest else Kept([rows[0]] + rest.rows)
  }

  function ProjectRow(cols: seq<string>, row: Row): Row {
    map c | c in cols :: Field(row, c)
  }

  function ProjectRows(cols: seq<string>, rows: seq<Row>): seq<Row> {
    if rows == [] then [] else [ProjectRow(cols, rows[0])] + ProjectRows(cols, rows[1..])
  }

  function Apply(stage: Stage, t: Table): Result {
    match stage
    case Where(p) =>
      var kept := WhereRows(p, t.rows);
      if kept.Refused? then Err(BadOperator(kept.op)) else Ok(t.(rows := kept.rows))
    case Project(cols) => if cols == [] then Err(NoColumns) else Ok(Table(cols, ProjectRows(cols, t.rows)))
    case Take(n) => if n < 0 then Err(NegativeCount) else Ok(if n < |t.rows| then t.(rows := t.rows[..n]) else t)
    case Count => Ok(Table(["Count"], [map["Count" := Number(|t.rows| as real)]]))
    case SortBy(col, desc) => Ok(t.(rows := Sort(Before(col, desc), t.rows)))
  }

  function Run(stages: seq<Stage>, t: Table): Result
    decreases |stages|
  {
    if stages == [] then Ok(t)
    else
      var r := Apply(stages[0], t);
      if r.Err? then r else Run(stages[1..], r.t)
  }

  // ---- The same as it runs ----

  method EvalPredicate(p: Predicate, row: Row) returns (v: Verdict)
    ensures v == Eval(p, row)
  {
    assert p[0..] == p;
    for i := 0 to |p|
      invariant Eval(p, row) == Eval(p[i..], row)
    {
      var group := p[i];
      assert p[i..][0] == group && p[i..][1..] == p[i + 1..];
      var all := true;
      assert group[0..] == group;
      for j := 0 to |group|
        invariant all && EvalGroup(group, row) == EvalGroup(group[j..], row)
      {
        assert group[j..][0] == group[j] && group[j..][1..] == group[j + 1..];
        var c := EvalComparison(group[j], row);
        if c.Unsupported? {
          return c;
        }
        if !c.b {
          all := false;
          break;
        }
      }
      assert all ==> EvalGroup(group, row) == Holds(true);
      if all {
        return Holds(true);
      }
    }
    return Holds(false);
  }

  method ApplyWhere(p: Predicate, rows: seq<Row>) returns (r: Kept)
    ensures r == WhereRows(p, rows)
  {
    hide Eval;
    var kept: seq<Row> := [];
    assert rows[0..] == rows;
    KeptNothing(WhereRows(p, rows));
    for i := 0 to |rows|
      invariant WhereRows(p, rows) == Joined(kept, WhereRows(p, rows[i..]))
    {
      assert rows[i..][0] == rows[i] && rows[i..][1..] == rows[i + 1..];
      var v := EvalPredicate(p, rows[i]);
      if v.Unsupported? {
        return Refused(v.op);
      }
      if v.b {
        JoinedTwice(kept, rows[i], WhereRows(p, rows[i + 1..]));
        kept := kept + [rows[i]];
      }
    }
    assert kept + [] == kept;
    return Kept(kept);
  }

  function Joined(rows: seq<Row>, more: Kept): Kept {
    if more.Refused? then more else Kept(rows + more.rows)
  }

  lemma KeptNothing(r: Kept)
    ensures Joined([], r) == r
  {
    if r.Kept? {
      assert [] + r.rows == r.rows;
    }
  }

  lemma JoinedTwice(rows: seq<Row>, row: Row, more: Kept)
    ensures Joined(rows, Joined([row], more)) == Joined(rows + [row], more)
  {
    if more.Kept? {
      assert rows + ([row] + more.rows) == rows + [row] + more.rows;
    }
  }

  method ApplyProjectRow(cols: seq<string>, r: Row) returns (row: Row)
    ensures row == ProjectRow(cols, r)
  {
    row := map[];
    for j := 0 to |cols|
      invariant row == ProjectRow(cols[..j], r)
    {
      ProjectNext(cols, j, r);
      row := row[cols[j] := if cols[j] in r then r[cols[j]] else Null];
    }
    assert cols[..|cols|] == cols;
  }

  lemma ProjectNext(cols: seq<string>, j: nat, r: Row)
    requires j < |cols|
    ensures ProjectRow(cols[..j + 1], r) == ProjectRow(cols[..j], r)[cols[j] := Field(r, cols[j])]
  {
    assert cols[..j + 1] == cols[..j] + [cols[j]];
  }

  method ApplyProject(cols: seq<string>, rows: seq<Row>) returns (out: seq<Row>)
    ensures out == ProjectRows(cols, rows)
  {
    hide ProjectRow;
    out := [];
    assert rows[0..] == rows && [] + ProjectRows(cols, rows) == ProjectRows(cols, rows);
    for i := 0 to |rows|
      invariant ProjectRows(cols, rows) == out + ProjectRows(cols, rows[i..])
    {
      assert rows[i..][0] == rows[i] && rows[i..][1..] == rows[i + 1..];
      var row := ApplyProjectRow(cols, rows[i]);
      out := out + [row];
    }
    assert out + [] == out;
  }

  /** Sorts the rows where they are. */
  method ApplySort(rows: array<Row>, col: string, desc: bool)
    modifies rows
    ensures rows[..] == Sort(Before(col, desc), old(rows[..]))
  {
    hide Sort, Insert, Before;
    var less := Before(col, desc);
    ghost var was := rows[..];
    SortNothing(less);
    assert was[..0] == [] && rows[..0] == [];
    for i := 0 to rows.Length
      invariant rows[..i] == Sort(less, was[..i]) && rows[i..] == was[i..]
    {
      assert was[..i + 1] == was[..i] + [was[i]];
      SortNext(less, was, i);
      ghost var now := rows[..];
      assert now[..i] == rows[..i] && now[i] == was[i] && now[i + 1..] == was[i + 1..];
      InsertLast(rows, i, less, now);
      assert |Insert(less, now[..i], now[i])| == i + 1;
    }
    assert was[..|was|] == was;
  }

  method InsertLast(rows: array<Row>, i: nat, less: (Row, Row) -> bool, ghost was: seq<Row>)
    requires i < rows.Length && rows[..] == was
    modifies rows
    ensures rows[..] == Insert(less, was[..i], was[i]) + was[i + 1..]
  {
    hide Insert;
    var j := i;
    ghost var x := was[i];
    while j > 0 && less(rows[j], rows[j - 1])
      invariant 0 <= j <= i && rows[j] == x
      invariant forall k | 0 <= k < j || i < k < rows.Length :: rows[k] == was[k]
      invariant forall k | j < k <= i :: rows[k] == was[k - 1]
      invariant forall k | j <= k < i :: less(x, was[k])
    {
      rows[j], rows[j - 1] := rows[j - 1], rows[j];
      j := j - 1;
    }
    assert rows[..] == was[..j] + [x] + was[j..i] + was[i + 1..];
    assert was[..i][..j] == was[..j] && was[..i][j..] == was[j..i];
    InsertPlace(less, was[..i], j, x);
  }

  lemma {:induction false} InsertPlace(less: (Row, Row) -> bool, s: seq<Row>, j: nat, x: Row)
    requires j <= |s| && (j > 0 ==> !less(x, s[j - 1])) && forall k | j <= k < |s| :: less(x, s[k])
    ensures Insert(less, s, x) == s[..j] + [x] + s[j..]
    decreases |s|
  {
    hide Insert;
    if j < |s| {
      var init := s[..|s| - 1];
      InsertPlace(less, init, j, x);
      InsertMoves(less, s, x);
      PlaceGrows(s, j, x);
    } else {
      InsertStops(less, s, x);
      assert s[..j] == s && s[j..] == [];
    }
  }

  lemma PlaceGrows<T>(s: seq<T>, j: nat, x: T)
    requires j < |s|
    ensures var init := s[..|s| - 1]; init[..j] + [x] + init[j..] + [s[|s| - 1]] == s[..j] + [x] + s[j..]
  {
  }

  lemma InsertMoves(less: (Row, Row) -> bool, s: seq<Row>, x: Row)
    requires s != [] && less(x, s[|s| - 1])
    ensures Insert(less, s, x) == Insert(less, s[..|s| - 1], x) + [s[|s| - 1]]
  {
  }

  lemma InsertStops(less: (Row, Row) -> bool, s: seq<Row>, x: Row)
    requires s == [] || !less(x, s[|s| - 1])
    ensures Insert(less, s, x) == s + [x]
  {
  }

  lemma SortNothing(less: (Row, Row) -> bool)
    ensures Sort(less, []) == []
  {
  }

  lemma SortNext(less: (Row, Row) -> bool, s: seq<Row>, i: nat)
    requires i < |s|
    ensures Sort(less, s[..i + 1]) == Insert(less, Sort(less, s[..i]), s[i])
  {
    assert s[..i + 1][..i] == s[..i];
  }

  method ApplyStage(stage: Stage, t: Table) returns (r: Result)
    ensures r == Apply(stage, t)
  {
    hide WhereRows, ProjectRows, Sort;
    match stage
    case Where(p) =>
      var kept := ApplyWhere(p, t.rows);
      r := if kept.Refused? then Err(BadOperator(kept.op)) else Ok(t.(rows := kept.rows));
    case Project(cols) =>
      if |cols| == 0 {
        return Err(NoColumns);
      }
      var rows := ApplyProject(cols, t.rows);
      r := Ok(Table(cols, rows));
    case Take(n) =>
      if n < 0 {
        return Err(NegativeCount);
      }
      r := Ok(if n < |t.rows| then t.(rows := t.rows[..n]) else t);
    case Count => r := Ok(Table(["Count"], [map["Count" := Number(|t.rows| as real)]]));
    case SortBy(col, desc) =>
      var rows := new Row[|t.rows|](i requires 0 <= i < |t.rows| => t.rows[i]);
      assert rows[..] == t.rows;
      ApplySort(rows, col, desc);
      r := Ok(t.(rows := rows[..]));
  }

  method EvalKql(stages: seq<Stage>, t: Table) returns (r: Result)
    ensures r == Run(stages, t)
  {
    hide Apply;
    var table := t;
    assert stages[0..] == stages;
    for i := 0 to |stages|
      invariant Run(stages, t) == Run(stages[i..], table)
    {
      assert stages[i..][0] == stages[i] && stages[i..][1..] == stages[i + 1..];
      r := ApplyStage(stages[i], table);
      if r.Err? {
        return r;
      }
      table := r.t;
    }
    return Ok(table);
  }
}
