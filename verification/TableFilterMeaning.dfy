/** Which entities the text of a filter selects, operator by operator. */
module TableFilterMeaning {
  import opened ByteOrder
  import opened Operators
  import opened Strings
  import opened TableFilter
  import opened TableFilterPrint

  /** The text is accepted and selects e. */
  predicate Selects(num: Numerals, text: string, e: Entity) {
    var r := ParseFilter(num, text);
    r.Some? && (r.value.Everything? || Eval(num, r.value.f, e))
  }

  /** What is printed selects what it means. */
  lemma PrintedSelects(num: Numerals, f: Filter, e: Entity)
    requires Writable(num, f) && ParenDepth(f, false) <= 64
    ensures Selects(num, Print(f, false), e) <==> Eval(num, f, e)
  {
    hide ParseFilter, Print, Writable, ParenDepth, Eval;
    FilterRoundTrip(num, f);
  }

  /** A field, a blank, an operator, a blank and a literal. */
  function Sentence(field: string, op: string, t: string): string {
    field + " " + op + " " + t
  }

  lemma TestText(num: Numerals, f: Filter, e: Entity)
    requires Writable(num, f) && f.Test?
    ensures Selects(num, Sentence(f.field, OpText(f.op), LiteralText(f.lit)), e) <==> Eval(num, f, e)
  {
    var op, lit := OpText(f.op), LiteralText(f.lit);
    assert f.field + " " + op + " " + lit == f.field + (" " + (op + (" " + lit)));
    assert ParenDepth(f, false) == 0;
    assert Print(f, false) == Sentence(f.field, op, lit);
    hide Selects, Eval, Writable, LiteralText, Print, ParenDepth, Sentence;
    PrintedSelects(num, f, e);
  }

  lemma Words()
    ensures OpText(CompareOp.Gt) == "gt" && OpText(CompareOp.Ge) == "ge" && OpText(CompareOp.Lt) == "lt"
    ensures OpText(CompareOp.Le) == "le" && OpText(CompareOp.Eq) == "eq" && OpText(CompareOp.Ne) == "ne"
  {
  }

  /** The entity has a number under the field. */
  predicate HasNumber(e: Entity, field: string) {
    field in e && e[field].PNumber?
  }

  /** A test with a number selects the entities whose number stands to it as the operator says. */
  lemma NumberTests(num: Numerals, field: string, t: string, e: Entity)
    requires Writable(num, Test(field, CompareOp.Eq, LNumber(t)))
    ensures num(t).Some?
    ensures Selects(num, Sentence(field, "gt", t), e) <==> HasNumber(e, field) && e[field].n > num(t).value
    ensures Selects(num, Sentence(field, "ge", t), e) <==> HasNumber(e, field) && e[field].n >= num(t).value
    ensures Selects(num, Sentence(field, "lt", t), e) <==> HasNumber(e, field) && e[field].n < num(t).value
    ensures Selects(num, Sentence(field, "le", t), e) <==> HasNumber(e, field) && e[field].n <= num(t).value
    ensures Selects(num, Sentence(field, "eq", t), e) <==> HasNumber(e, field) && e[field].n == num(t).value
    ensures Selects(num, Sentence(field, "ne", t), e) <==> HasNumber(e, field) && e[field].n != num(t).value
  {
    assert num(t).Some?;
    hide *;
    Words();
    if HasNumber(e, field) { NumericMeaning(e, field, num(t).value); }
    NumberTest(num, field, CompareOp.Gt, t, e);
    NumberTest(num, field, CompareOp.Ge, t, e);
    NumberTest(num, field, CompareOp.Lt, t, e);
    NumberTest(num, field, CompareOp.Le, t, e);
    NumberTest(num, field, CompareOp.Eq, t, e);
    NumberTest(num, field, CompareOp.Ne, t, e);
  }

  lemma NumericMeaning(e: Entity, field: string, v: real)
    requires HasNumber(e, field)
    ensures var a := e[field].n;
            && NumericOp(CompareOp.Gt, a, v) == (a > v) && NumericOp(CompareOp.Ge, a, v) == (a >= v)
            && NumericOp(CompareOp.Lt, a, v) == (a < v) && NumericOp(CompareOp.Le, a, v) == (a <= v)
            && NumericOp(CompareOp.Eq, a, v) == (a == v) && NumericOp(CompareOp.Ne, a, v) == (a != v)
  {
  }

  lemma NumberTest(num: Numerals, field: string, op: CompareOp, t: string, e: Entity)
    requires Writable(num, Test(field, CompareOp.Eq, LNumber(t))) && num(t).Some?
    ensures Selects(num, Sentence(field, OpText(op), t), e) <==>
            HasNumber(e, field) && NumericOp(op, e[field].n, num(t).value)
  {
    hide Selects, Sentence, OpText;
    TestText(num, Test(field, op, LNumber(t)), e);
  }

  predicate HasString(e: Entity, field: string) {
    field in e && e[field].PString?
  }

  /** a comes before b in byte order: at the first difference it has the smaller byte, or it ends there. */
  predicate Precedes(a: string, b: string) {
    exists i | 0 <= i <= |a| && i < |b| && a[..i] == b[..i] :: i == |a| || a[i] < b[i]
  }

  /** A test with a string selects by the order of bytes. */
  lemma StringTests(num: Numerals, field: string, s: string, e: Entity)
    requires Writable(num, Test(field, CompareOp.Eq, LString(s)))
    ensures var t := "'" + (DoubleQuotes(s) + "'");
            && (Selects(num, Sentence(field, "gt", t), e) <==> HasString(e, field) && Precedes(s, e[field].s))
            && (Selects(num, Sentence(field, "ge", t), e) <==> HasString(e, field) && !Precedes(e[field].s, s))
            && (Selects(num, Sentence(field, "lt", t), e) <==> HasString(e, field) && Precedes(e[field].s, s))
            && (Selects(num, Sentence(field, "le", t), e) <==> HasString(e, field) && !Precedes(s, e[field].s))
            && (Selects(num, Sentence(field, "eq", t), e) <==> HasString(e, field) && e[field].s == s)
            && (Selects(num, Sentence(field, "ne", t), e) <==> HasString(e, field) && e[field].s != s)
  {
    Words();
    hide Selects, Sentence, OpText, Writable, Precedes, Less, DoubleQuotes;
    StringTest(num, field, CompareOp.Gt, s, e);
    StringTest(num, field, CompareOp.Ge, s, e);
    StringTest(num, field, CompareOp.Lt, s, e);
    StringTest(num, field, CompareOp.Le, s, e);
    StringTest(num, field, CompareOp.Eq, s, e);
    StringTest(num, field, CompareOp.Ne, s, e);
    if HasString(e, field) {
      LessPrecedes(s, e[field].s);
      LessPrecedes(e[field].s, s);
    }
  }

  lemma StringTest(num: Numerals, field: string, op: CompareOp, s: string, e: Entity)
    requires Writable(num, Test(field, CompareOp.Eq, LString(s)))
    ensures Selects(num, Sentence(field, OpText(op), "'" + (DoubleQuotes(s) + "'")), e) <==>
            HasString(e, field) && StringOp(op, e[field].s, s)
  {
    hide Selects, Sentence, OpText, DoubleQuotes, StringOp;
    assert "'" + (DoubleQuotes(s) + "'") == "'" + DoubleQuotes(s) + "'";
    TestText(num, Test(field, op, LString(s)), e);
  }

  lemma {:induction false} LessPrecedes(a: string, b: string)
    ensures Less(a, b) <==> Precedes(a, b)
  {
    CodesFirst(a, b);
    if a == [] || b == [] {
      if b != [] { assert a[..0] == b[..0] && 0 == |a|; }
    } else if a[0] == b[0] {
      LessPrecedes(a[1..], b[1..]);
      PrecedesRest(a, b);
    } else {
      PrecedesFirst(a, b);
    }
  }

  lemma CodesFirst(a: string, b: string)
    ensures a == "" || b == "" ==> (Less(a, b) <==> b != "")
    ensures a != "" && b != "" ==> (Less(a, b) <==> a[0] < b[0] || (a[0] == b[0] && Less(a[1..], b[1..])))
  {
    if a != "" && b != "" {
      assert Codes(a)[1..] == Codes(a[1..]) && Codes(b)[1..] == Codes(b[1..]);
    }
  }

  lemma PrecedesFirst(a: string, b: string)
    requires a != "" && b != "" && a[0] != b[0]
    ensures Precedes(a, b) <==> a[0] < b[0]
  {
    if a[0] < b[0] { assert a[..0] == b[..0]; }
    if i :| 0 <= i <= |a| && i < |b| && a[..i] == b[..i] && (i == |a| || a[i] < b[i]) {
      FirstSame(a, b, i);
    }
  }

  lemma FirstSame(a: string, b: string, i: nat)
    requires i <= |a| && i <= |b| && a[..i] == b[..i]
    ensures i > 0 ==> a[0] == b[0]
  {
    if i > 0 { assert a[0] == a[..i][0] == b[..i][0]; }
  }

  lemma PrecedesRest(a: string, b: string)
    requires a != "" && b != "" && a[0] == b[0]
    ensures Precedes(a, b) <==> Precedes(a[1..], b[1..])
  {
    var x, y := a[1..], b[1..];
    if i :| 0 <= i <= |a| && i < |b| && a[..i] == b[..i] && (i == |a| || a[i] < b[i]) {
      assert i > 0;
      assert x[..i - 1] == a[..i][1..] && y[..i - 1] == b[..i][1..];
    }
    if i :| 0 <= i <= |x| && i < |y| && x[..i] == y[..i] && (i == |x| || x[i] < y[i]) {
      assert a[..i + 1] == [a[0]] + x[..i] && b[..i + 1] == [b[0]] + y[..i];
    }
  }

  predicate HasBool(e: Entity, field: string) {
    field in e && e[field].PBool?
  }

  /** A test with a boolean selects by equality, and with an order nothing. */
  lemma BoolTests(num: Numerals, field: string, e: Entity)
    requires Writable(num, Test(field, CompareOp.Eq, LBool(true)))
    ensures Selects(num, Sentence(field, "eq", "true"), e) <==> HasBool(e, field) && e[field].b
    ensures Selects(num, Sentence(field, "eq", "false"), e) <==> HasBool(e, field) && !e[field].b
    ensures Selects(num, Sentence(field, "ne", "true"), e) <==> HasBool(e, field) && !e[field].b
    ensures Selects(num, Sentence(field, "ne", "false"), e) <==> HasBool(e, field) && e[field].b
    ensures forall op, t | op in {"gt", "ge", "lt", "le"} && t in {"true", "false"} ::
              !Selects(num, Sentence(field, op, t), e)
  {
    Words();
    hide Selects, Sentence, OpText, Writable;
    BoolTest(num, field, CompareOp.Eq, true, e);
    BoolTest(num, field, CompareOp.Eq, false, e);
    BoolTest(num, field, CompareOp.Ne, true, e);
    BoolTest(num, field, CompareOp.Ne, false, e);
    forall op | op in {CompareOp.Gt, CompareOp.Ge, CompareOp.Lt, CompareOp.Le}
      ensures !Selects(num, Sentence(field, OpText(op), "true"), e)
      ensures !Selects(num, Sentence(field, OpText(op), "false"), e)
    {
      BoolTest(num, field, op, true, e);
      BoolTest(num, field, op, false, e);
    }
  }

  lemma BoolTest(num: Numerals, field: string, op: CompareOp, b: bool, e: Entity)
    requires Writable(num, Test(field, CompareOp.Eq, LBool(true)))
    ensures Selects(num, Sentence(field, OpText(op), if b then "true" else "false"), e) <==>
            HasBool(e, field) && (if op == CompareOp.Eq then e[field].b == b else op == CompareOp.Ne && e[field].b != b)
  {
    hide Selects, Sentence, OpText;
    TestText(num, Test(field, op, LBool(b)), e);
  }

  /** "or" selects what either side does. */
  lemma OrSelectsEither(num: Numerals, f: Filter, g: Filter, e: Entity)
    requires Writable(num, f) && Writable(num, g) && ParenDepth(f, false) <= 64 && ParenDepth(g, false) <= 64
    ensures var (a, b) := (Print(f, false), Print(g, false));
            Selects(num, a + " or " + b, e) <==> Selects(num, a, e) || Selects(num, b, e)
  {
    var a, b := Print(f, false), Print(g, false);
    assert Print(Or(f, g), false) == a + (" or " + b) == a + " or " + b;
    assert ParenDepth(Or(f, g), false) <= 64;
    assert Eval(num, Or(f, g), e) <==> Eval(num, f, e) || Eval(num, g, e);
    hide Print, ParenDepth, Eval, Selects;
    PrintedSelects(num, f, e);
    PrintedSelects(num, g, e);
    PrintedSelects(num, Or(f, g), e);
  }

  /** An "or" needs parentheses beside an "and", and nothing else does. */
  function Guarded(f: Filter): string {
    if f.Or? then "(" + Print(f, false) + ")" else Print(f, false)
  }

  /** "and" selects what both sides do, and binds tighter than "or". */
  lemma AndSelectsBoth(num: Numerals, f: Filter, g: Filter, e: Entity)
    requires Writable(num, f) && Writable(num, g) && ParenDepth(f, true) <= 64 && ParenDepth(g, true) <= 64
    ensures Selects(num, Guarded(f) + " and " + Guarded(g), e) <==>
            Selects(num, Print(f, false), e) && Selects(num, Print(g, false), e)
  {
    TightText(f);
    TightText(g);
    var a, b := Print(f, true), Print(g, true);
    assert Print(And(f, g), false) == a + (" and " + b) == a + " and " + b;
    assert ParenDepth(And(f, g), false) <= 64;
    assert Eval(num, And(f, g), e) <==> Eval(num, f, e) && Eval(num, g, e);
    hide Print, ParenDepth, Eval, Selects, Guarded;
    PrintedSelects(num, f, e);
    PrintedSelects(num, g, e);
    PrintedSelects(num, And(f, g), e);
  }

  lemma TightText(f: Filter)
    ensures Print(f, true) == Guarded(f)
    ensures ParenDepth(f, false) <= ParenDepth(f, true)
  {
    if f.Or? {
      assert "(" + (Print(f, false) + ")") == "(" + Print(f, false) + ")";
    }
  }

  const BLANKS: set<char> := {' ', '\t', '\n', '\U{0B}', '\U{0C}', '\r'}

  /** A filter with nothing but blanks, tabs, line ends and form feeds selects everything. */
  lemma BlankSelectsAll(num: Numerals, text: string, e: Entity)
    requires forall c | c in text :: c in BLANKS
    ensures Selects(num, text, e)
  {
    AllTrimmed(text);
  }

  lemma {:induction false} AllTrimmed(text: string)
    requires forall c | c in text :: c in BLANKS
    ensures TrimLeft(text) == ""
  {
    if text != "" {
      assert text[0] in text;
      AllTrimmed(text[1..]);
    }
  }

  /** Keywords and operators are known in any letter case. */
  lemma KeywordsInAnyCase(num: Numerals, w: string)
    ensures ClassifyWord(num, w) == AndTok <==> Lower(w) == "and"
    ensures ClassifyWord(num, w) == OrTok <==> Lower(w) == "or"
    ensures ClassifyWord(num, w) == BoolTok(true) <==> Lower(w) == "true"
    ensures ClassifyWord(num, w) == BoolTok(false) <==> Lower(w) == "false"
    ensures ClassifyWord(num, w) == OpTok(CompareOp.Eq) <==> Lower(w) == "eq"
    ensures ClassifyWord(num, w) == OpTok(CompareOp.Ne) <==> Lower(w) == "ne"
    ensures ClassifyWord(num, w) == OpTok(CompareOp.Gt) <==> Lower(w) == "gt"
    ensures ClassifyWord(num, w) == OpTok(CompareOp.Ge) <==> Lower(w) == "ge"
    ensures ClassifyWord(num, w) == OpTok(CompareOp.Lt) <==> Lower(w) == "lt"
    ensures ClassifyWord(num, w) == OpTok(CompareOp.Le) <==> Lower(w) == "le"
  {
  }
}
