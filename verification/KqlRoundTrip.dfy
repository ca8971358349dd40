/** Exactly which where clauses are read back as they were written, whatever stands in their columns and strings. */
module KqlRoundTrip {
  import opened Kql
  import opened KqlFind
  import opened KqlPrint
  import opened KqlText
  import opened KqlWords
  import opened Operators
  import opened Strings
  import opened Wrappers

  // ---- Where the first comparison of a clause ends ----

  lemma WordsParts(col: string, op: CompareOp, v: seq<string>)
    requires IsTight(col) && SingleSpaced(col) && AreWords(v) && v != []
    ensures Spaced(Fields(col) + ([OpText(op)] + v)) == Parts(col, op, Spaced(v))
  {
    hide Spaced, Fields, SingleSpaced, IsTight, Squeeze;
    SpacedOfFields(col);
    SqueezeShortens(col);
    SpacedJoin(Fields(col), [OpText(op)] + v);
    SpacedJoin([OpText(op)], v);
    SpacedOne(OpText(op));
  }

  lemma SpacedOne(w: string)
    ensures Spaced([w]) == w
  {
  }

  /** The column, with a blank behind it or none. */
  lemma ColumnSingle(s: string, col: string, at: nat)
    requires IsTight(s) && SingleSpaced(s) && at < |s| && TrimSpace(s[..at]) == col != ""
    ensures SingleSpaced(col) && |col| < |s| && (at == |col| || (at == |col| + 1 && s[..at] == col + " "))
  {
    hide *;
    var head := s[..at];
    assert head == s[0..at];
    SingleSub(s, 0, at);
    TrimSingle(head);
    StartsTight(s, head);
    HeadForms(col, head);
    SingleSub(head, 0, |col|);
  }

  lemma StartsTight(s: string, head: string)
    requires IsTight(s) && head <= s && head != ""
    ensures !IsSpace(head[0])
  {
  }

  lemma HeadForms(col: string, head: string)
    requires head == "" + (col + "") || head == "" + (col + " ")
    ensures (head == col || head == col + " ") && |col| <= |head| && head[0..|col|] == col
  {
  }

  /** The blank behind the operator and the literal. */
  lemma TailIs(s: string, all: string, i: nat)
    requires IsTight(s) && SingleSpaced(s) && (s <= all || all <= s)
    requires i <= |s| && i < |all| && all[i] == ' ' && TrimSpace(s[i..]) != ""
    ensures var rhs := TrimSpace(s[i..]); s[i..] == " " + rhs && IsTight(rhs) && SingleSpaced(rhs)
  {
    var mid := s[i..];
    assert mid == s[i..|s|];
    SingleSub(s, i, |s|);
    TrimSingle(mid);
    TrimIsTight(mid);
    hide SingleSpaced, TrimSpace;
    assert mid[0] == s[i] == all[i];
    assert mid[|mid| - 1] == s[|s| - 1];
    var rhs := TrimSpace(mid);
    assert mid == " " + (rhs + "") == " " + rhs;
    assert s[i + 1..|s|] == mid[1..] == rhs;
    SingleSub(s, i + 1, |s|);
  }

  /** One text is the beginning of the other. */
  predicate Begins(s: string, t: string) {
    s <= t || t <= s
  }

  /** A text that is read as a comparison, and begins as one or is the beginning of one, has its three parts. */
  lemma Shape(num: Numerals, s: string, c: Comparison, v: seq<string>) returns (rhs: string)
    requires IsTight(s) && SingleSpaced(s) && ParseComparison(num, s) == Some(c)
    requires AreWords(v) && v != [] && Begins(s, Spaced(Fields(c.column) + ([OpText(c.op)] + v)))
    ensures s == Parts(c.column, c.op, rhs) && IsTight(rhs) && SingleSpaced(rhs)
    ensures ParseLiteral(num, rhs) == Some(c.lit) && IsTight(c.column) && SingleSpaced(c.column)
  {
    hide *;
    var at := ReadFrom(num, s, c);
    ReadTight(num, s, c);
    NotBlankAt(s, c.op, at);
    ColumnSingle(s, c.column, at);
    ColumnThere(s, c.column, c.op, v, at);
    rhs := TrimSpace(s[at + |OpText(c.op)|..]);
    LiteralThere(s, c.column, c.op, v);
    ThreeParts(s, c.column, c.op, rhs);
  }

  lemma ColumnThere(s: string, col: string, op: CompareOp, v: seq<string>, at: nat)
    requires IsTight(col) && SingleSpaced(col) && AreWords(v) && v != []
    requires Begins(s, Spaced(Fields(col) + ([OpText(op)] + v))) && |col| < |s|
    requires at == |col| ==> s[|col|] != ' '
    ensures at != |col|
  {
    var all := Spaced(Fields(col) + ([OpText(op)] + v));
    hide Spaced, Fields, OpText, IsTight, SingleSpaced;
    AllLayout(col, op, v);
    AgreeAt(s, all, |col|);
  }

  lemma LiteralThere(s: string, col: string, op: CompareOp, v: seq<string>)
    requires IsTight(col) && SingleSpaced(col) && AreWords(v) && v != [] && IsTight(s) && SingleSpaced(s)
    requires Begins(s, Spaced(Fields(col) + ([OpText(op)] + v)))
    requires var i := |col| + 1 + |OpText(op)|; i <= |s| && TrimSpace(s[i..]) != ""
    ensures var i := |col| + 1 + |OpText(op)|;
            var rhs := TrimSpace(s[i..]);
            s[i..] == " " + rhs && IsTight(rhs) && SingleSpaced(rhs)
  {
    hide Spaced, Fields, OpText, IsTight, SingleSpaced;
    AllLayout(col, op, v);
    TailIs(s, Spaced(Fields(col) + ([OpText(op)] + v)), |col| + 1 + |OpText(op)|);
  }

  lemma NotBlankAt(s: string, op: CompareOp, at: nat)
    requires OccursAt(s, OpText(op), at)
    ensures at < |s| && s[at] != ' '
  {
    OpStarts(op);
    OccursMeans(s, OpText(op), at);
  }

  lemma AllLayout(col: string, op: CompareOp, v: seq<string>)
    requires IsTight(col) && SingleSpaced(col) && AreWords(v) && v != []
    ensures var (all, at) := (Spaced(Fields(col) + ([OpText(op)] + v)), |col| + 1 + |OpText(op)|);
            |all| > at && all[|col|] == ' ' && all[at] == ' '
  {
    WordsParts(col, op, v);
    Layout(col, op, Spaced(v));
  }

  lemma AgreeAt(s: string, t: string, i: nat)
    requires (s <= t || t <= s) && i < |s| && i < |t|
    ensures s[i] == t[i]
  {
  }

  lemma ThreeParts(s: string, col: string, op: CompareOp, t: string)
    requires var (x, at) := (OpText(op), |col| + 1);
             && at + |x| <= |s| && s[..at] == col + " " && OccursAt(s, x, at) && s[at + |x|..] == " " + t
    ensures s == Parts(col, op, t)
  {
    var x, at := OpText(op), |col| + 1;
    assert s == s[..at] + (s[at..at + |x|] + s[at + |x|..]);
  }

  lemma LiteralReads(num: Numerals, show: Show, w: Written)
    requires Writable(num, show, w)
    ensures IsTight(LiteralText(show, w)) && ParseLiteral(num, LiteralText(show, w)) == Some(w.c.lit)
    ensures !w.c.lit.LText? ==> IsName(LiteralText(show, w))
  {
    match w.c.lit
    case LText(s) => assert Quoted(w.quote, s)[1..|s| + 1] == s;
    case LNumber(n) =>
    case LBool(b) =>
      var t := LiteralText(show, w);
      assert Lower(t) == t && IsPlain(t);
      assert Lower(t)[0] != 'a' && Lower(t)[0] != 'o';
  }

  lemma QuotedIs(num: Numerals, rhs: string, s: string)
    requires ParseLiteral(num, rhs) == Some(LText(s))
    ensures rhs != "" && rhs == Quoted(rhs[0], s)
  {
    assert rhs == [rhs[0]] + rhs[1..|rhs| - 1] + [rhs[|rhs| - 1]];
  }

  /** The first character of a tight text is that of its first word. */
  lemma StartOf(s: string)
    requires IsTight(s)
    ensures Fields(s) != [] && Fields(s)[0] != "" && Fields(s)[0][0] == s[0]
  {
  }

  /** A text that is read as the literal, and whose words begin the literal's or go on from them. */
  lemma LiteralSettled(num: Numerals, show: Show, w: Written, rhs: string)
    requires Writable(num, show, w) && ParseLiteral(num, rhs) == Some(w.c.lit) && IsTight(rhs)
    requires var (r, v) := (Fields(rhs), Fields(LiteralText(show, w))); r <= v || v <= r
    ensures w.c.lit.LText? ==> rhs == LiteralText(show, w)
    ensures !w.c.lit.LText? ==> Fields(LiteralText(show, w)) == [LiteralText(show, w)] <= Fields(rhs)
  {
    var t := LiteralText(show, w);
    LiteralReads(num, show, w);
    StartOf(rhs);
    StartOf(t);
    if w.c.lit.LText? {
      QuotedIs(num, rhs, w.c.lit.s);
    } else {
      FieldsOfWord(t);
    }
  }

  lemma WordsQuote(show: Show, w: Written)
    requires Closes(w.c.column)
    ensures QuoteAfterWords(None, ComparisonWords(show, w)) == QuoteAfter(None, LiteralText(show, w))
  {
    hide Fields, QuoteAfterWords;
    var col, x, v := Fields(w.c.column), OpText(w.c.op), Fields(LiteralText(show, w));
    QuoteOfFields(None, w.c.column);
    QuoteOfFields(None, LiteralText(show, w));
    QuoteWordsAppend(None, col, [x] + v);
    QuoteWordsAppend(None, [x], v);
    OpStarts(w.c.op);
    OperatorQuotes(x, None);
    OneWordQuote(x);
  }

  lemma OneWordQuote(x: string)
    ensures QuoteAfterWords(None, [x]) == QuoteAfter(None, x)
  {
    assert [x][1..] == [];
  }

  lemma WordsUncut(show: Show, w: Written)
    requires Closes(w.c.column)
    ensures var u := ComparisonWords(show, w);
            FirstCut(u, Either, None) == |u| <==> Uncut(w.c.column) && Uncut(LiteralText(show, w))
  {
    hide Fields, QuoteAfterWords, FirstCut, Stops;
    var col, x, v := Fields(w.c.column), OpText(w.c.op), Fields(LiteralText(show, w));
    QuoteOfFields(None, w.c.column);
    CutAppend(col, [x] + v, Either, None);
    CutAppend([x], v, Either, None);
    OpStarts(w.c.op);
    OperatorQuotes(x, None);
    OneWordQuote(x);
    OperatorGoes(w.c.op);
  }

  lemma OperatorGoes(op: CompareOp)
    ensures FirstCut([OpText(op)], Either, None) == 1
  {
    assert Lower(OpText(op))[0] == OpText(op)[0];
  }

  lemma WrittenAreWords(show: Show, w: Written)
    ensures AreWords(ComparisonWords(show, w))
  {
    hide Fields;
    FieldsAreWords(w.c.column);
    FieldsAreWords(LiteralText(show, w));
  }

  /** What stands behind a comparison: nothing, or a keyword and more words. */
  predicate Tail(ws: seq<string>) {
    AreWords(ws) && (ws != [] ==> Stops(Either, ws[0]))
  }

  /** A comparison that stands is what is read first. */
  lemma Stood(num: Numerals, show: Show, w: Written, tail: seq<string>)
    requires Writable(num, show, w) && Stands(show, w)
    requires Tail(tail) && (tail != [] ==> Closes(LiteralText(show, w)))
    ensures var (u, n) := (ComparisonWords(show, w), FirstCut(ComparisonWords(show, w) + tail, Either, None));
            n == |u| && (u + tail)[..n] == u && ParseComparison(num, Spaced(u)) == Some(w.c)
  {
    hide Fields, FirstCut, ParseComparison, ParseLiteral, Spaced, IsTight, SingleSpaced, Squeeze, NoOperator, Stops, Uncut;
    var u, t := ComparisonWords(show, w), LiteralText(show, w);
    LiteralReads(num, show, w);
    WordsUncut(show, w);
    WordsQuote(show, w);
    CutAppend(u, tail, Either, None);
    CutsAtOnce(tail);
    SpacedOfFields(t);
    SqueezeShortens(t);
    FieldsAreWords(t);
    WordsParts(w.c.column, w.c.op, Fields(t));
    ApartReads(num, w.c.column, w.c.op, t);
  }

  lemma CutsAtOnce(tail: seq<string>)
    ensures Tail(tail) ==> FirstCut(tail, Either, None) == 0
    ensures tail == [] ==> forall q :: FirstCut(tail, Either, q) == 0
  {
  }

  lemma EmptyRefused(num: Numerals)
    ensures ParseComparison(num, "") == None
  {
    hide ParseLiteral;
    assert TrimSpace("") == "";
    forall o: string | o != "" ensures IndexOperator("", o, None, 0) == -1 { IndexNothing(o, None); }
    forall k | 0 <= k < |OPS| ensures OpText(OPS[k]) != "" { OpStarts(OPS[k]); }
    NoneFound(num, "", 0);
  }

  lemma {:induction false} NoneFound(num: Numerals, s: string, k: nat)
    requires k <= |OPS| && forall j | 0 <= j < |OPS| :: IndexOperator(s, OpText(OPS[j]), None, 0) == -1
    ensures FirstOperator(num, s, k) == None
    decreases |OPS| - k
  {
    hide IndexOperator, OpText;
    if k < |OPS| { NoneFound(num, s, k + 1); }
  }

  lemma BeginsWith(u: seq<string>, tail: seq<string>, n: nat)
    requires n <= |u + tail|
    ensures var first := (u + tail)[..n]; (n <= |u| ==> first <= u) && (n >= |u| ==> u <= first)
    ensures Begins(Spaced((u + tail)[..n]), Spaced(u))
  {
    hide Spaced;
    var first := (u + tail)[..n];
    if n <= |u| {
      assert first == u[..n];
      SpacedPrefix(first, u);
    } else {
      assert first[..|u|] == u;
      SpacedPrefix(u, first);
    }
  }

  /** The words that are read as the comparison are those of its column and operator, and of a literal. */
  lemma FirstShape(num: Numerals, show: Show, w: Written, tail: seq<string>, n: nat) returns (rhs: string)
    requires Writable(num, show, w) && Tail(tail) && n <= |ComparisonWords(show, w) + tail|
    requires ParseComparison(num, Spaced((ComparisonWords(show, w) + tail)[..n])) == Some(w.c)
    ensures var first := (ComparisonWords(show, w) + tail)[..n];
            && Spaced(first) == Parts(w.c.column, w.c.op, rhs)
            && first == Fields(w.c.column) + ([OpText(w.c.op)] + Fields(rhs))
    ensures IsTight(rhs) && SingleSpaced(rhs) && ParseLiteral(num, rhs) == Some(w.c.lit)
    ensures IsTight(w.c.column) && SingleSpaced(w.c.column)
  {
    var u, t := ComparisonWords(show, w), LiteralText(show, w);
    var first := (u + tail)[..n];
    assert AreWords(first) by { WrittenAreWords(show, w); }
    assert Fields(t) != [] && AreWords(Fields(t)) by { LiteralWords(num, show, w); }
    hide Fields, ParseComparison, ParseLiteral, Spaced, IsTight, SingleSpaced, Parts, Begins;
    if first == [] {
      EmptyRefused(num);
      SpacedNothing();
    }
    SpacedTight(first);
    SpacedSingle(first);
    BeginsWith(u, tail, n);
    rhs := Shape(num, Spaced(first), w.c, Fields(t));
    FieldsOfSpaced(first);
    PartsFields(w.c.column, w.c.op, rhs);
  }

  lemma LiteralWords(num: Numerals, show: Show, w: Written)
    requires Writable(num, show, w)
    ensures Fields(LiteralText(show, w)) != [] && AreWords(Fields(LiteralText(show, w)))
  {
    hide Fields;
    LiteralReads(num, show, w);
    StartOf(LiteralText(show, w));
    FieldsAreWords(LiteralText(show, w));
  }

  lemma PartsFields(col: string, op: CompareOp, t: string)
    ensures Fields(Parts(col, op, t)) == Fields(col) + ([OpText(op)] + Fields(t))
  {
    FieldsBetween(col, OpText(op), t);
  }

  lemma SameStart(a: seq<string>, x: string, r: seq<string>, v: seq<string>, tail: seq<string>, n: nat)
    requires n <= |a + ([x] + v) + tail| && (a + ([x] + v) + tail)[..n] == a + ([x] + r)
    ensures r <= v || v <= r
    ensures v == r ==> n == |a + ([x] + v)|
    ensures v <= r ==> n >= |a + ([x] + v)|
    ensures n == |a + ([x] + v)| ==> v == r
  {
    var u := a + ([x] + v);
    var first := a + ([x] + r);
    var k := |a| + 1;
    assert first[k..] == r && u[k..] == v;
    if |r| <= |v| {
      assert forall i | 0 <= i < |r| :: r[i] == first[k + i] == (u + tail)[k + i] == u[k + i] == v[i];
    } else {
      assert forall i | 0 <= i < |v| :: v[i] == u[k + i] == (u + tail)[k + i] == first[k + i] == r[i];
    }
  }

  lemma PlainQuote(t: string)
    requires IsPlain(t)
    ensures QuoteAfter(None, t) == None
  {
    NoQuoteAfter(t, None);
  }

  lemma NotCutAtOnce(tail: seq<string>, quote: Option<char>)
    requires Tail(tail) && tail != []
    ensures FirstCut(tail, Either, quote) == 0 <==> quote.None?
  {
  }

  /** What is read first is the comparison only if it ends where its words do. */
  lemma EndsThere(num: Numerals, show: Show, w: Written, tail: seq<string>, rhs: string)
    requires Writable(num, show, w) && Tail(tail) && Closes(w.c.column)
    requires ParseLiteral(num, rhs) == Some(w.c.lit) && IsTight(rhs)
    requires var all := ComparisonWords(show, w) + tail;
             all[..FirstCut(all, Either, None)] == Fields(w.c.column) + ([OpText(w.c.op)] + Fields(rhs))
    ensures FirstCut(ComparisonWords(show, w) + tail, Either, None) == |ComparisonWords(show, w)|
  {
    var u, t := ComparisonWords(show, w), LiteralText(show, w);
    var n := FirstCut(u + tail, Either, None);
    LiteralReads(num, show, w);
    if !w.c.lit.LText? { PlainQuote(t); }
    hide Fields, FirstCut, ParseLiteral, IsTight, Stops, QuoteAfter, QuoteAfterWords, LiteralText, Writable;
    SameStart(Fields(w.c.column), OpText(w.c.op), Fields(rhs), Fields(t), tail, n);
    LiteralSettled(num, show, w, rhs);
    if !w.c.lit.LText? {
      WordsQuote(show, w);
      CutAppend(u, tail, Either, None);
      if tail == [] {
        assert u + tail == u;
      } else {
        NotCutAtOnce(tail, None);
      }
    }
  }

  /** What is read first is the comparison only if it stands, and closes its quotes when more follows. */
  lemma MustStand(num: Numerals, show: Show, w: Written, tail: seq<string>)
    requires Writable(num, show, w) && Tail(tail)
    requires var all := ComparisonWords(show, w) + tail;
             ParseComparison(num, Spaced(all[..FirstCut(all, Either, None)])) == Some(w.c)
    ensures FirstCut(ComparisonWords(show, w) + tail, Either, None) == |ComparisonWords(show, w)|
    ensures Stands(show, w) && (tail != [] ==> Closes(LiteralText(show, w)))
  {
    hide Fields, FirstCut, ParseComparison, ParseLiteral, Spaced, IsTight, SingleSpaced, Stops, Uncut, Parts,
      QuoteAfterWords, QuoteAfter, LiteralText, Writable, NoOperator;
    var u, t := ComparisonWords(show, w), LiteralText(show, w);
    var n := FirstCut(u + tail, Either, None);
    var rhs := FirstShape(num, show, w, tail, n);
    ReadsApart(num, w.c.column, w.c.op, rhs, w.c.lit);
    EndsThere(num, show, w, tail, rhs);
    SameStart(Fields(w.c.column), OpText(w.c.op), Fields(rhs), Fields(t), tail, n);
    LiteralSettled(num, show, w, rhs);
    assert rhs == t by { if !w.c.lit.LText? { OneWordText(rhs, t); } }
    WordsUncut(show, w);
    WordsQuote(show, w);
    CutAppend(u, tail, Either, None);
    if tail != [] { NotCutAtOnce(tail, QuoteAfter(None, t)); }
  }

  lemma OneWordText(rhs: string, t: string)
    requires IsTight(rhs) && SingleSpaced(rhs) && Fields(rhs) == [t]
    ensures rhs == t
  {
    hide Fields, Squeeze, SingleSpaced, IsTight;
    SpacedOfFields(rhs);
    SqueezeShortens(rhs);
    SpacedOne(t);
  }

  // ---- The whole clause ----

  lemma MeantCons(g: seq<Written>, p: Clause)
    ensures Meant([g] + p) == [GroupMeant(g)] + Meant(p)
  {
    hide GroupMeant;
  }

  lemma GroupCons(w: Written, g: seq<Written>)
    ensures GroupMeant([w] + g) == [w.c] + GroupMeant(g)
  {
  }

  lemma MeantRest(p: Clause)
    requires NonEmpty(p)
    ensures var (c, r) := (p[0][0].c, Meant(Rest(p)));
            if |p[0]| > 1 then Meant(p) == [[c] + r[0]] + r[1..] else Meant(p) == [[c]] + r
  {
    var g, w := p[0], p[0][0];
    assert p == [g] + p[1..] && g == [w] + g[1..];
    MeantCons(g, p[1..]);
    MeantCons(g[1..], p[1..]);
    GroupCons(w, g[1..]);
    hide Meant, GroupMeant;
    if |g| > 1 {
      assert ([GroupMeant(g[1..])] + Meant(p[1..]))[1..] == Meant(p[1..]);
    } else {
      assert g[1..] == [] && GroupMeant([]) == [];
      assert [w.c] + [] == [w.c];
    }
  }

  lemma ConsSame<T>(x: T, s: seq<T>, y: T, t: seq<T>)
    ensures [x] + s == [y] + t <==> x == y && s == t
  {
    if [x] + s == [y] + t {
      assert ([x] + s)[1..] == s && ([y] + t)[1..] == t && ([x] + s)[0] == x;
    }
  }

  lemma SameInGroup(c: Comparison, r: Predicate, d: Comparison, m: Predicate)
    requires r != [] && m != []
    ensures [[c] + r[0]] + r[1..] == [[d] + m[0]] + m[1..] <==> c == d && r == m
  {
    ConsSame([c] + r[0], r[1..], [d] + m[0], m[1..]);
    ConsSame(c, r[0], d, m[0]);
    ConsSame(r[0], r[1..], m[0], m[1..]);
    assert r == [r[0]] + r[1..] && m == [m[0]] + m[1..];
  }

  lemma SameAlone(c: Comparison, r: Predicate, d: Comparison, m: Predicate)
    ensures [[c]] + r == [[d]] + m <==> c == d && r == m
  {
    ConsSame([c], r, [d], m);
    ConsSame(c, [], d, []);
    assert [c] + [] == [c] && [d] + [] == [d];
  }

  /** Reading the first comparison and the rest gives the clause exactly when both are read. */
  lemma InFrontIs(p: Clause, c: Option<Comparison>, r: Option<Predicate>)
    requires NonEmpty(p) && Rest(p) != [] && (r.Some? ==> r.value != [])
    ensures InFront(|p[0]| > 1, c, r) == Some(Meant(p)) <==> c == Some(p[0][0].c) && r == Some(Meant(Rest(p)))
  {
    MeantRest(p);
    var m := Meant(Rest(p));
    hide Meant, Rest, GroupMeant;
    if c.Some? && r.Some? {
      if |p[0]| > 1 {
        SameInGroup(c.value, r.value, p[0][0].c, m);
      } else {
        SameAlone(c.value, r.value, p[0][0].c, m);
      }
    }
  }

  lemma AloneIs(p: Clause, c: Option<Comparison>)
    requires NonEmpty(p) && Rest(p) == []
    ensures c.Some? ==> ([[c.value]] == Meant(p) <==> c == Some(p[0][0].c))
  {
    MeantRest(p);
    assert Meant([]) == [];
    assert Meant(p) == [[p[0][0].c]] + [] == [[p[0][0].c]];
    if c.Some? { assert [[c.value]][0][0] == c.value && [[p[0][0].c]][0][0] == p[0][0].c; }
  }

  lemma RestWritable(num: Numerals, show: Show, p: Clause)
    requires WritableClause(num, show, p) && Rest(p) != []
    ensures WritableClause(num, show, Rest(p))
  {
    var r := Rest(p);
    forall i, j | 0 <= i < |r| && 0 <= j < |r[i]| ensures Writable(num, show, r[i][j]) {
      if |p[0]| > 1 {
        if i == 0 { assert r[0][j] == p[0][j + 1]; } else { assert r[i] == p[i]; }
      } else {
        assert r[i] == p[i + 1];
      }
    }
  }

  lemma {:induction false} ClauseWordsAreWords(show: Show, p: Clause)
    requires NonEmpty(p)
    ensures AreWords(ClauseWords(show, p))
  {
    hide Fields;
    ClauseFields(show, p);
    FieldsAreWords(ClauseText(show, p));
  }

  lemma LinkStops(p: Clause)
    requires NonEmpty(p)
    ensures Stops(Either, Link(p)) && (Stops(And, Link(p)) <==> |p[0]| > 1) && IsWord(Link(p))
  {
    assert Lower("and") == "and" && Lower("or") == "or";
  }

  /** One reading step on the words of a clause. */
  lemma ReadsFirst(num: Numerals, show: Show, p: Clause)
    requires NonEmpty(p) && FirstCut(ClauseWords(show, p), Either, None) == |ComparisonWords(show, p[0][0])|
    ensures var u := ComparisonWords(show, p[0][0]);
            ReadWords(num, ClauseWords(show, p)) ==
            if Rest(p) == [] then (var c := ParseComparison(num, Spaced(u)); if c.Some? then Some([[c.value]]) else None)
            else InFront(|p[0]| > 1, ParseComparison(num, Spaced(u)), ReadWords(num, ClauseWords(show, Rest(p))))
  {
    hide ParseComparison, Spaced, FirstCut, ComparisonWords, Stops, Link;
    var u, ws := ComparisonWords(show, p[0][0]), ClauseWords(show, p);
    LinkStops(p);
    assert ws[..|u|] == u;
    if Rest(p) == [] {
      assert ws == u;
    } else {
      assert ws[|u|] == Link(p) && ws[|u| + 1..] == ClauseWords(show, Rest(p));
    }
  }

  lemma FirstRead(num: Numerals, show: Show, p: Clause)
    requires NonEmpty(p) && ReadWords(num, ClauseWords(show, p)) == Some(Meant(p))
    ensures var ws := ClauseWords(show, p);
            ParseComparison(num, Spaced(ws[..FirstCut(ws, Either, None)])) == Some(p[0][0].c)
  {
    hide ParseComparison, Spaced, FirstCut, ComparisonWords, Stops, ClauseWords;
    assert Meant(p)[0] == GroupMeant(p[0]);
    assert Meant(p)[0][0] == p[0][0].c;
  }

  lemma {:induction false} WordsExactly(num: Numerals, show: Show, p: Clause)
    requires WritableClause(num, show, p)
    ensures ReadWords(num, ClauseWords(show, p)) == Some(Meant(p)) <==> ReadsBack(show, p)
    decreases |p|, |p[0]|
  {
    hide ParseComparison, Spaced, FirstCut, ComparisonWords, Stops, Link, ReadWords, Stands, Meant, Writable, InFront, Rest,
      Closes, LiteralText;
    var w, ws := p[0][0], ClauseWords(show, p);
    var tail := if Rest(p) == [] then [] else [Link(p)] + ClauseWords(show, Rest(p));
    var u := ComparisonWords(show, w);
    assert Tail(tail) by { TailOf(show, p); }
    if ReadWords(num, ws) == Some(Meant(p)) {
      FirstRead(num, show, p);
      MustStand(num, show, w, tail);
    }
    if Stands(show, w) && (tail != [] ==> Closes(LiteralText(show, w))) {
      Stood(num, show, w, tail);
      ReadsFirst(num, show, p);
      if Rest(p) == [] {
        AloneIs(p, ParseComparison(num, Spaced(u)));
      } else {
        RestWritable(num, show, p);
        RestSmaller(p);
        InFrontIs(p, ParseComparison(num, Spaced(u)), ReadWords(num, ClauseWords(show, Rest(p))));
        WordsExactly(num, show, Rest(p));
      }
    }
  }

  lemma TailOf(show: Show, p: Clause)
    requires NonEmpty(p)
    ensures Tail(if Rest(p) == [] then [] else [Link(p)] + ClauseWords(show, Rest(p)))
  {
    hide Rest, Link, Stops;
    LinkStops(p);
    if Rest(p) != [] { ClauseWordsAreWords(show, Rest(p)); }
  }

  lemma ClauseParsed(num: Numerals, show: Show, p: Clause)
    requires NonEmpty(p)
    ensures ParsePredicate(num, ClauseText(show, p)) == ReadWords(num, ClauseWords(show, p))
  {
    hide ParsePredicate, ReadWords, Fields, ComparisonWords;
    ClauseFields(show, p);
    ReadsWords(num, ClauseText(show, p));
  }

  /** A clause is read back as it was written exactly when its columns and literals are as `ReadsBack` says. */
  lemma ClauseRoundTrip(num: Numerals, show: Show, p: Clause)
    requires WritableClause(num, show, p)
    ensures ParsePredicate(num, ClauseText(show, p)) == Some(Meant(p)) <==> ReadsBack(show, p)
  {
    hide ParsePredicate, ReadWords, ClauseText, ClauseWords, Meant, ReadsBack, Writable;
    ClauseParsed(num, show, p);
    WordsExactly(num, show, p);
  }
}
