/** How the operator of a comparison is found, and exactly which comparisons are told apart into their parts. */
module KqlFind {
  import opened Kql
  import opened KqlPrint
  import opened KqlText
  import opened KqlWords
  import opened Operators
  import opened Strings
  import opened Wrappers

  // ---- Finding an operator ----

  lemma OccursMeans(s: string, o: string, j: nat)
    ensures OccursAt(s, o, j) ==>
              && j + |o| <= |s|
              && (|o| > 0 ==> s[j] == o[0]) && (|o| > 1 ==> s[j + 1] == o[1])
  {
  }

  /** A search from i is a search of what follows. */
  lemma {:induction false} IndexShift(s: string, op: string, quote: Option<char>, i: nat)
    requires i <= |s| && op != ""
    ensures var r := IndexOperator(s[i..], op, quote, 0);
            IndexOperator(s, op, quote, i) == if r < 0 then -1 else i + r
    decreases |s| - i
  {
    var t := s[i..];
    if i + |op| <= |s| {
      assert t[0] == s[i] && t[1..] == s[i + 1..];
      assert OccursAt(s, op, i) <==> OccursAt(t, op, 0) by { assert s[i..i + |op|] == t[..|op|]; }
      var next := if quote.Some? then (if s[i] == quote.value then None else quote)
                  else if IsQuote(s[i]) then Some(s[i]) else None;
      IndexShift(s, op, next, i + 1);
      IndexShift(t, op, next, 1);
    }
  }

  /** One character on, when nothing is found at it. */
  lemma IndexStep(s: string, op: string, quote: Option<char>)
    requires s != "" && op != ""
    ensures var next := QuoteAfter(quote, [s[0]]);
            var r := IndexOperator(s[1..], op, next, 0);
            IndexOperator(s, op, quote, 0) ==
            if quote.None? && !IsQuote(s[0]) && OccursAt(s, op, 0) then 0 else if r < 0 then -1 else 1 + r
  {
    var next := QuoteAfter(quote, [s[0]]);
    assert [s[0]][1..] == "" && QuoteAfter(next, "") == next;
    if |op| <= |s| {
      IndexShift(s, op, next, 1);
    }
  }

  predicate IsOperator(o: string) {
    1 <= |o| <= 2 && IsOpChar(o[0]) && (|o| == 2 ==> IsOpChar(o[1]))
  }

  /** In two texts with a blank between an operator is found in the first, or else in the second. */
  lemma {:induction false} IndexJoin(a: string, b: string, o: string, quote: Option<char>)
    requires IsOperator(o) && (quote.Some? ==> IsQuote(quote.value))
    ensures var (r, q) := (IndexOperator(a, o, quote, 0), IndexOperator(b, o, QuoteAfter(quote, a), 0));
            IndexOperator(a + (" " + b), o, quote, 0) ==
            if r >= 0 then r else if q < 0 then -1 else |a| + 1 + q
    decreases |a|
  {
    var s := a + (" " + b);
    hide OccursAt, IndexOperator;
    IndexStep(s, o, quote);
    if a == "" {
      IndexNothing(o, quote);
      assert s == " " + b && s[1..] == b;
      OccursMeans(s, o, 0);
      BlankQuote(quote);
    } else {
      IndexStep(a, o, quote);
      assert s[1..] == a[1..] + (" " + b) && s[0] == a[0];
      FoundHere(a, b, o);
      QuoteCons(quote, a);
      QuoteStays(quote, [a[0]]);
      IndexJoin(a[1..], b, o, QuoteAfter(quote, [a[0]]));
    }
  }

  lemma IndexNothing(o: string, quote: Option<char>)
    requires o != ""
    ensures IndexOperator("", o, quote, 0) == -1
  {
  }

  lemma BlankQuote(quote: Option<char>)
    ensures QuoteAfter(quote, "") == quote
    ensures quote != Some(' ') ==> QuoteAfter(quote, " ") == quote
    ensures QuoteAfter(quote, [' ']) == QuoteAfter(quote, " ")
  {
    assert " "[1..] == "";
  }

  lemma QuoteCons(quote: Option<char>, a: string)
    requires a != ""
    ensures QuoteAfter(quote, a) == QuoteAfter(QuoteAfter(quote, [a[0]]), a[1..])
  {
    assert a == [a[0]] + a[1..];
    QuoteAppend(quote, [a[0]], a[1..]);
  }

  lemma FoundHere(a: string, b: string, o: string)
    requires a != "" && IsOperator(o)
    ensures OccursAt(a + (" " + b), o, 0) <==> OccursAt(a, o, 0)
  {
    var s := a + (" " + b);
    assert s[0] == a[0] && if |a| > 1 then s[1] == a[1] else s[1] == ' ';
  }

  // ---- One comparison ----

  lemma OpsDiffer(k: nat, m: nat)
    requires k <= m < |OPS|
    ensures var (o, x) := (OpText(OPS[k]), OpText(OPS[m]));
            IsOperator(o) && IsOperator(x) && IndexOperator(x, o, None, 0) == if k == m then 0 else -1
  {
    var o, x := OpText(OPS[k]), OpText(OPS[m]);
    hide OccursAt, IndexOperator;
    IndexStep(x, o, None);
    OccursMeans(x, o, 0);
    assert k == m ==> OccursAt(x, o, 0) by { WholeOccurs(x); }
    if |x| == 2 {
      IndexStep(x[1..], o, None);
      OccursMeans(x[1..], o, 0);
    }
    IndexNothing(o, None);
    OperatorQuotes(x, None);
    assert QuoteAfter(None, [x[0]]) == None by { OperatorQuotes([x[0]], None); }
    if |x| == 2 { assert QuoteAfter(None, [x[1]]) == None by { OperatorQuotes([x[1]], None); } }
  }

  lemma WholeOccurs(x: string)
    ensures OccursAt(x, x, 0)
  {
    assert x[0..|x|] == x;
  }

  lemma OperatorQuotes(x: string, quote: Option<char>)
    requires (forall i | 0 <= i < |x| :: IsOpChar(x[i])) && (quote.Some? ==> IsQuote(quote.value))
    ensures QuoteAfter(quote, x) == quote
  {
    NoQuoteAfter(x, quote);
  }

  /** Inside quotes no operator is found. */
  lemma {:induction false} IndexQuoted(x: string, o: string, q: char)
    requires q !in x && o != ""
    ensures IndexOperator(x, o, Some(q), 0) == -1
    decreases |x|
  {
    hide OccursAt, IndexOperator;
    if x == "" {
      IndexNothing(o, Some(q));
    } else {
      IndexStep(x, o, Some(q));
      assert [x[0]][1..] == "" && QuoteAfter(Some(q), [x[0]]) == Some(q);
      IndexQuoted(x[1..], o, q);
    }
  }

  /** Where an operator is found in the text of a comparison. */
  lemma IndexParts(col: string, op: CompareOp, t: string, k: nat)
    requires k <= Rank(op)
    ensures var (o, q) := (OpText(OPS[k]), QuoteAfter(None, col));
            var (r, f) := (IndexOperator(col, o, None, 0), IndexOperator(t, o, q, 0));
            IndexOperator(Parts(col, op, t), o, None, 0) ==
            if r >= 0 then r
            else if q == None && k == Rank(op) then |col| + 1
            else if f < 0 then -1 else |col| + |OpText(op)| + 2 + f
  {
    var o, x, q := OpText(OPS[k]), OpText(op), QuoteAfter(None, col);
    OpsDiffer(k, Rank(op));
    OpStarts(op);
    hide IndexOperator, OpText, OccursAt;
    QuoteStays(None, col);
    IndexJoin(col, x + (" " + t), o, None);
    IndexJoin(x, t, o, q);
    OperatorQuotes(x, q);
    if q.Some? { IndexQuoted(x, o, q.value); }
  }

  lemma OpStarts(op: CompareOp)
    ensures 1 <= |OpText(op)| <= 2 && forall j | 0 <= j < |OpText(op)| :: IsOpChar(OpText(op)[j])
  {
  }

  lemma {:induction false} FirstFound(num: Numerals, s: string, k: nat)
    requires k <= |OPS| && FirstOperator(num, s, k).Some?
    ensures var c := FirstOperator(num, s, k).value;
            var (m, at) := (Rank(c.op), IndexOperator(s, OpText(c.op), None, 0));
            && k <= m && (forall j | k <= j < m :: IndexOperator(s, OpText(OPS[j]), None, 0) == -1)
            && 0 <= at && ComparisonAt(num, s, c.op, at) == Some(c)
    decreases |OPS| - k
  {
    hide IndexOperator, ParseLiteral, TrimSpace;
    assert k < |OPS|;
    RankOf(k);
    if IndexOperator(s, OpText(OPS[k]), None, 0) < 0 {
      FirstFound(num, s, k + 1);
    }
  }

  lemma RankOf(k: nat)
    requires k < |OPS|
    ensures Rank(OPS[k]) == k
  {
  }

  lemma {:induction false} FindOperator(num: Numerals, s: string, op: CompareOp, k: nat, m: nat)
    requires k <= m < |OPS| && OPS[m] == op
    requires forall j | 0 <= j < m :: IndexOperator(s, OpText(OPS[j]), None, 0) == -1
    requires IndexOperator(s, OpText(op), None, 0) >= 0
    ensures FirstOperator(num, s, k) == ComparisonAt(num, s, op, IndexOperator(s, OpText(op), None, 0))
    decreases m - k
  {
    hide IndexOperator, ComparisonAt, OpText;
    if k < m {
      assert IndexOperator(s, OpText(OPS[k]), None, 0) == -1;
      FindOperator(num, s, op, k + 1, m);
    }
  }

  lemma {:induction false} TrimIsTight(s: string)
    ensures TrimSpace(s) == "" || IsTight(TrimSpace(s))
  {
    LeftStarts(s);
    RightEnds(TrimLeft(s));
  }

  lemma {:induction false} LeftStarts(s: string)
    ensures TrimLeft(s) == "" || !IsSpace(TrimLeft(s)[0])
  {
    if s != "" && IsSpace(s[0]) { LeftStarts(s[1..]); }
  }

  lemma {:induction false} RightEnds(s: string)
    ensures TrimRight(s) <= s
    ensures TrimRight(s) == "" || !IsSpace(TrimRight(s)[|TrimRight(s)| - 1])
  {
    if s != "" && IsSpace(s[|s| - 1]) { RightEnds(s[..|s| - 1]); }
  }

  lemma LeftSingle(s: string)
    requires SingleSpaced(s) && TrimLeft(s) != ""
    ensures s != "" && s == (if IsSpace(s[0]) then " " else "") + TrimLeft(s)
  {
    if IsSpace(s[0]) {
      assert s == [s[0]] + s[1..];
      assert |s| > 1 ==> !IsSpace(s[1]);
      assert TrimLeft(s[1..]) == s[1..];
    }
  }

  lemma RightSingle(s: string)
    requires SingleSpaced(s) && TrimRight(s) != ""
    ensures s != "" && s == TrimRight(s) + if IsSpace(s[|s| - 1]) then " " else ""
  {
    var k := |s| - 1;
    if IsSpace(s[k]) {
      assert s == s[..k] + [s[k]];
      assert k > 0 ==> !IsSpace(s[k - 1]);
      assert TrimRight(s[..k]) == s[..k];
    }
  }

  /** Trimming a single-spaced text takes at most one blank off each end. */
  lemma TrimSingle(s: string)
    requires SingleSpaced(s) && TrimSpace(s) != ""
    ensures s != ""
    ensures s == (if IsSpace(s[0]) then " " else "") + (TrimSpace(s) + if IsSpace(s[|s| - 1]) then " " else "")
  {
    var l := TrimLeft(s);
    assert l != "" by { NothingRight(); }
    LeftSingle(s);
    var k := |s| - |l|;
    assert l == s[k..];
    SingleSub(s, k, |s|);
    assert s[k..|s|] == l;
    RightSingle(l);
    hide TrimLeft, TrimRight, SingleSpaced;
    assert l[|l| - 1] == s[|s| - 1];
  }

  lemma NothingRight()
    ensures TrimRight("") == ""
  {
  }

  lemma SingleSub(s: string, i: nat, j: nat)
    requires SingleSpaced(s) && i <= j <= |s|
    ensures SingleSpaced(s[i..j])
  {
    var t := s[i..j];
    forall k | 0 <= k < |t| && IsSpace(t[k]) ensures t[k] == ' ' && (k + 1 < |t| ==> !IsSpace(t[k + 1])) {
      assert t[k] == s[i + k] && (k + 1 < |t| ==> t[k + 1] == s[i + k + 1]);
    }
  }

  /** What a comparison that is read was found from. */
  lemma ReadFrom(num: Numerals, s: string, c: Comparison) returns (at: nat)
    requires IsTight(s) && ParseComparison(num, s) == Some(c)
    ensures at == IndexOperator(s, OpText(c.op), None, 0) && at + |OpText(c.op)| <= |s|
    ensures OccursAt(s, OpText(c.op), at)
    ensures TrimSpace(s[..at]) == c.column != ""
    ensures var rhs := TrimSpace(s[at + |OpText(c.op)|..]); rhs != "" && ParseLiteral(num, rhs) == Some(c.lit)
  {
    hide IndexOperator, ParseLiteral, TrimSpace, FirstOperator;
    TrimTight(s);
    FirstFound(num, s, 0);
    at := IndexOperator(s, OpText(c.op), None, 0);
  }

  lemma Layout(col: string, op: CompareOp, t: string)
    ensures var (s, x, at) := (Parts(col, op, t), OpText(op), |col| + 1);
            && |s| == at + |x| + 1 + |t| && s[|col|] == ' ' && s[at + |x|] == ' '
            && s[..|col|] == col && s[..at] == col + " " && s[at..at + |x|] == x
            && s[at + |x|..] == " " + t && s[at + |x| + 1..] == t
  {
    hide OpText;
    var s, x, at := Parts(col, op, t), OpText(op), |col| + 1;
    assert s == (col + " ") + (x + (" " + t)) == (col + " " + x) + (" " + t) == (col + " " + x + " ") + t;
    Cut(col + " ", x + (" " + t));
    Cut(col + " " + x, " " + t);
    Cut(col + " " + x + " ", t);
  }

  lemma Cut(a: string, b: string)
    ensures (a + b)[..|a|] == a && (a + b)[|a|..] == b
  {
  }

  function WithLiteral(col: string, op: CompareOp, lit: Option<Literal>): Option<Comparison> {
    if lit.Some? then Some(Comparison(col, op, lit.value)) else None
  }

  lemma PartsAt(num: Numerals, col: string, op: CompareOp, t: string)
    requires IsTight(col) && IsTight(t)
    ensures ComparisonAt(num, Parts(col, op, t), op, |col| + 1) == WithLiteral(col, op, ParseLiteral(num, t))
  {
    hide ParseLiteral, TrimSpace, OpText, Parts;
    Layout(col, op, t);
    TrimTight(col);
    TrimTight(t);
  }

  lemma PartsTight(col: string, op: CompareOp, t: string)
    requires IsTight(col) && IsTight(t)
    ensures IsTight(Parts(col, op, t)) && TrimSpace(Parts(col, op, t)) == Parts(col, op, t)
  {
    hide TrimSpace;
    var x := OpText(op);
    assert " " + (x + (" " + t)) == " " + (x + " ") + t;
    TightJoin(col, " " + (x + " "), t);
    TrimTight(Parts(col, op, t));
  }

  /** The parts of a comparison are told apart: nothing in the column or the literal is taken for its operator. */
  predicate Apart(col: string, op: CompareOp, t: string) {
    Closes(col) && NoOperator(col, Rank(op) + 1) && NoOperator(t, Rank(op))
  }

  lemma ApartReads(num: Numerals, col: string, op: CompareOp, t: string)
    requires IsTight(col) && IsTight(t) && Apart(col, op, t)
    ensures ParseComparison(num, Parts(col, op, t)) == WithLiteral(col, op, ParseLiteral(num, t))
  {
    hide IndexOperator, ParseLiteral, TrimSpace, FirstOperator, ComparisonAt, Parts, WithLiteral, IsTight;
    var s, m := Parts(col, op, t), Rank(op);
    PartsTight(col, op, t);
    forall k | 0 <= k < m ensures IndexOperator(s, OpText(OPS[k]), None, 0) == -1 { IndexParts(col, op, t, k); }
    IndexParts(col, op, t, m);
    FindOperator(num, s, op, 0, m);
    PartsAt(num, col, op, t);
  }

  lemma ReadsApart(num: Numerals, col: string, op: CompareOp, t: string, lit: Literal)
    requires IsTight(col) && IsTight(t) && ParseComparison(num, Parts(col, op, t)) == Some(Comparison(col, op, lit))
    ensures Apart(col, op, t)
  {
    hide IndexOperator, ParseLiteral, TrimSpace, FirstOperator, ComparisonAt, Parts, OccursAt;
    var s, m, x := Parts(col, op, t), Rank(op), OpText(op);
    PartsTight(col, op, t);
    FirstFound(num, s, 0);
    var at := ReadFrom(num, s, Comparison(col, op, lit));
    OpStarts(op);
    OccursMeans(s, x, at);
    OperatorPlace(col, op, t, at);
    IndexParts(col, op, t, m);
    IndexLow(col, x, None);
    IndexBelow(col, x);
    IndexLow(t, x, QuoteAfter(None, col));
    assert Closes(col);
    forall k | 0 <= k < m
      ensures IndexOperator(col, OpText(OPS[k]), None, 0) == -1 && IndexOperator(t, OpText(OPS[k]), None, 0) == -1
    {
      IndexParts(col, op, t, k);
      IndexLow(col, OpText(OPS[k]), None);
      IndexLow(t, OpText(OPS[k]), None);
    }
  }

  lemma IndexLow(s: string, o: string, quote: Option<char>)
    ensures IndexOperator(s, o, quote, 0) >= -1
  {
  }

  lemma IndexBelow(s: string, o: string)
    ensures IndexOperator(s, o, None, 0) <= |s|
  {
  }

  /** The column that is read ends where the column that was written does. */
  lemma OperatorPlace(col: string, op: CompareOp, t: string, at: nat)
    requires IsTight(col) && at < |Parts(col, op, t)| && IsOpChar(Parts(col, op, t)[at])
    requires TrimSpace(Parts(col, op, t)[..at]) == col
    ensures at == |col| + 1
  {
    var s := Parts(col, op, t);
    OpStarts(op);
    Layout(col, op, t);
    hide Parts, OpText;
    assert s[|col| + 1] == OpText(op)[0] by { assert s[|col| + 1..|col| + 1 + |OpText(op)|][0] == s[|col| + 1]; }
    TrimLength(s[..at]);
    if at > |col| + 1 {
      assert s[0] == col[0];
      TrimReaches(s[..at], |col| + 1);
    }
  }

  lemma {:induction false} TrimLength(s: string)
    ensures |TrimSpace(s)| <= |s|
  {
    LeftShorter(s);
    RightEnds(TrimLeft(s));
  }

  lemma {:induction false} LeftShorter(s: string)
    ensures |TrimLeft(s)| <= |s|
  {
    if s != "" && IsSpace(s[0]) { LeftShorter(s[1..]); }
  }

  /** What stands before a character that is not white space is not trimmed from the right. */
  lemma TrimReaches(s: string, i: nat)
    requires i < |s| && !IsSpace(s[0]) && !IsSpace(s[i])
    ensures |TrimSpace(s)| > i
  {
    RightReaches(s, i);
  }

  lemma {:induction false} RightReaches(s: string, i: nat)
    requires i < |s| && !IsSpace(s[i])
    ensures |TrimRight(s)| > i
    decreases |s|
  {
    if IsSpace(s[|s| - 1]) {
      assert s[..|s| - 1][i] == s[i];
      RightReaches(s[..|s| - 1], i);
    }
  }

  /**
   A column, an operator and a literal are read as these three exactly when the column is not empty and
   has no white space at its ends, and the parts are told apart.
   */
  lemma ComparisonExactly(num: Numerals, col: string, op: CompareOp, t: string, lit: Literal)
    requires IsTight(t) && ParseLiteral(num, t) == Some(lit)
    ensures ParseComparison(num, Parts(col, op, t)) == Some(Comparison(col, op, lit)) <==>
            IsTight(col) && Apart(col, op, t)
  {
    hide ParseComparison, ParseLiteral, Apart, IsTight, Parts;
    if ParseComparison(num, Parts(col, op, t)) == Some(Comparison(col, op, lit)) {
      ReadTight(num, Parts(col, op, t), Comparison(col, op, lit));
      ReadsApart(num, col, op, t, lit);
    }
    if IsTight(col) && Apart(col, op, t) {
      ApartReads(num, col, op, t);
    }
  }

  /** Every column that is read is tight. */
  lemma ReadTight(num: Numerals, s: string, c: Comparison)
    requires ParseComparison(num, s) == Some(c)
    ensures IsTight(c.column)
  {
    hide IndexOperator, ParseLiteral, TrimSpace, FirstOperator, IsTight;
    FirstFound(num, TrimSpace(s), 0);
    var at := IndexOperator(TrimSpace(s), OpText(c.op), None, 0);
    TrimIsTight(TrimSpace(s)[..at]);
  }
}
