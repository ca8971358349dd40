/** What the white space and the quotes of a where clause do to it. */
module KqlQuotes {
  import opened Kql
  import opened KqlFind
  import opened KqlPrint
  import opened KqlRoundTrip
  import opened KqlText
  import opened KqlWords
  import opened Operators
  import opened Strings
  import opened Wrappers

  // ---- What squeezing does ----

  function SqueezeWritten(w: Written): Written {
    var lit := if w.c.lit.LText? then LText(Squeeze(w.c.lit.s)) else w.c.lit;
    w.(c := w.c.(column := Spaced(Fields(w.c.column)), lit := lit))
  }

  function SqueezeGroup(g: seq<Written>): (r: seq<Written>)
    ensures |r| == |g| && forall i | 0 <= i < |g| :: r[i] == SqueezeWritten(g[i])
  {
    seq(|g|, i requires 0 <= i < |g| => SqueezeWritten(g[i]))
  }

  /** Every run of white space in a column or a string becomes one blank, and at the ends of a column none. */
  function SqueezeClause(p: Clause): (r: Clause)
    ensures |r| == |p| && forall i | 0 <= i < |p| :: r[i] == SqueezeGroup(p[i])
  {
    seq(|p|, i requires 0 <= i < |p| => SqueezeGroup(p[i]))
  }

  lemma SqueezeQuoted(q: char, s: string)
    requires IsQuote(q)
    ensures Squeeze(Quoted(q, s)) == Quoted(q, Squeeze(s))
  {
    assert ([q] + s + [q])[1..] == s + [q];
    SqueezeEnd(s, q);
  }

  lemma SqueezedWords(num: Numerals, show: Show, w: Written)
    requires Writable(num, show, w)
    ensures ComparisonWords(show, SqueezeWritten(w)) == ComparisonWords(show, w)
    ensures Writable(num, show, SqueezeWritten(w))
  {
    hide Fields, Spaced, Squeeze;
    FieldsAreWords(w.c.column);
    FieldsOfSpaced(Fields(w.c.column));
    if w.c.lit.LText? {
      var t := LiteralText(show, w);
      SqueezeQuoted(w.quote, w.c.lit.s);
      SpacedOfFields(t);
      FieldsAreWords(t);
      FieldsOfSpaced(Fields(t));
    }
  }

  lemma SqueezeRest(p: Clause)
    requires NonEmpty(p)
    ensures NonEmpty(SqueezeClause(p)) && Rest(SqueezeClause(p)) == SqueezeClause(Rest(p))
    ensures Link(SqueezeClause(p)) == Link(p)
  {
    hide SqueezeWritten;
    var r := SqueezeClause(p);
    assert r[0][1..] == SqueezeGroup(p[0][1..]);
    assert r[1..] == SqueezeClause(p[1..]);
    SqueezeCons(p[0][1..], p[1..]);
    hide SqueezeGroup, SqueezeClause;
    assert |r[0]| == |p[0]|;
  }

  lemma SqueezeCons(g: seq<Written>, p: Clause)
    ensures SqueezeClause([g] + p) == [SqueezeGroup(g)] + SqueezeClause(p)
  {
    hide SqueezeGroup;
  }

  lemma {:induction false} SqueezedClauseWords(num: Numerals, show: Show, p: Clause)
    requires WritableClause(num, show, p)
    ensures NonEmpty(SqueezeClause(p)) && WritableClause(num, show, SqueezeClause(p))
    ensures ClauseWords(show, SqueezeClause(p)) == ClauseWords(show, p)
    decreases |p|, |p[0]|
  {
    hide SqueezeWritten, ComparisonWords, Rest, Link, Writable;
    SqueezeRest(p);
    SqueezedWords(num, show, p[0][0]);
    forall i, j | 0 <= i < |p| && 0 <= j < |p[i]| ensures Writable(num, show, SqueezeClause(p)[i][j]) {
      SqueezedWords(num, show, p[i][j]);
    }
    SqueezeNothing();
    if Rest(p) != [] {
      RestWritable(num, show, p);
      RestSmaller(p);
      SqueezedClauseWords(num, show, Rest(p));
    }
  }

  lemma SqueezeNothing()
    ensures SqueezeClause([]) == []
  {
  }

  /**
   The parser does not see how much white space there is: a clause is read with its columns and strings
   squeezed exactly when the squeezed clause is one that is read back.
   */
  lemma ReadsSqueezed(num: Numerals, show: Show, p: Clause)
    requires WritableClause(num, show, p)
    ensures NonEmpty(SqueezeClause(p))
    ensures ParsePredicate(num, ClauseText(show, p)) == ParsePredicate(num, ClauseText(show, SqueezeClause(p)))
    ensures ParsePredicate(num, ClauseText(show, p)) == Some(Meant(SqueezeClause(p))) <==>
            ReadsBack(show, SqueezeClause(p))
  {
    hide ParsePredicate, ReadWords, ClauseText, ClauseWords, Meant, ReadsBack, Writable, SqueezeClause;
    SqueezedClauseWords(num, show, p);
    ClauseParsed(num, show, p);
    ClauseParsed(num, show, SqueezeClause(p));
    ClauseRoundTrip(num, show, SqueezeClause(p));
  }

  // ---- Ordinary clauses ----

  /** The column is a name and the string lacks the quote that is put around it. */
  predicate IsOrdinary(w: Written) {
    IsName(w.c.column) && (w.c.lit.LText? ==> w.quote !in w.c.lit.s)
  }

  lemma {:induction false} PlainNoOperator(w: string, o: string)
    requires IsOperator(o) && forall i | 0 <= i < |w| :: !IsQuote(w[i]) && !IsOpChar(w[i])
    ensures IndexOperator(w, o, None, 0) == -1
    decreases |w|
  {
    hide OccursAt, IndexOperator;
    if w == "" {
      IndexNothing(o, None);
    } else {
      IndexStep(w, o, None);
      OccursMeans(w, o, 0);
      assert [w[0]][1..] == "" && QuoteAfter(None, [w[0]]) == None;
      PlainNoOperator(w[1..], o);
    }
  }

  lemma NameStands(w: string, n: nat)
    requires IsName(w) && n <= |OPS|
    ensures IsTight(w) && SingleSpaced(w) && Uncut(w) && Closes(w) && NoOperator(w, n) && Fields(w) == [w]
  {
    FieldsOfWord(w);
    NoQuoteAfter(w, None);
    assert FirstCut([w], Either, None) == 1;
    forall k | 0 <= k < n ensures IndexOperator(w, OpText(OPS[k]), None, 0) == -1 {
      OpsDiffer(k, k);
      PlainNoOperator(w, OpText(OPS[k]));
    }
  }

  lemma {:induction false} ClosingQuote(s: string, q: char)
    requires q !in s
    ensures QuoteAfter(Some(q), s + [q]) == None
    decreases |s|
  {
    assert (s + [q])[1..] == if s == "" then "" else s[1..] + [q];
    if s != "" { ClosingQuote(s[1..], q); }
  }

  /** What stands inside quotes is not cut, up to the closing quote and with it. */
  lemma {:induction false} InsideUncut(s: string, q: char)
    requires IsQuote(q) && q !in s
    ensures FirstCut(Fields(s + [q]), Either, Some(q)) == |Fields(s + [q])|
    decreases |s|
  {
    hide Stops;
    var t := s + [q];
    if s != "" && IsSpace(s[0]) {
      assert t[1..] == s[1..] + [q];
      InsideUncut(s[1..], q);
    } else {
      var n := RunLength(t, false);
      if n == |t| {
        assert t[..n] == t && t[n..] == "" && Fields("") == [];
        assert Fields(t) == [t] && [t][1..] == [];
      } else {
        assert n < |s| by { assert t[|s|] == q; }
        assert t[n..] == s[n..] + [q];
        NoQuoteAfter(t[..n], Some(q));
        InsideUncut(s[n..], q);
        assert Fields(t) == [t[..n]] + Fields(t[n..]);
        assert Fields(t)[1..] == Fields(t[n..]);
      }
    }
  }

  lemma FieldsPrepend(q: char, s: string)
    requires IsQuote(q) && s != ""
    ensures Fields([q] + s) ==
            if IsSpace(s[0]) then [[q]] + Fields(s) else [[q] + Fields(s)[0]] + Fields(s)[1..]
  {
    var t := [q] + s;
    assert t[1..] == s;
    var n := RunLength(s, false);
    assert RunLength(t, false) == 1 + n;
    assert t[..1 + n] == [q] + s[..n] && t[1 + n..] == s[n..];
    if IsSpace(s[0]) {
      assert s[..0] == "" && s[0..] == s;
    }
  }

  /** No keyword inside a quoted string cuts the clause. */
  lemma QuotedUncut(q: char, s: string)
    requires IsQuote(q) && q !in s
    ensures Uncut(Quoted(q, s))
  {
    var t := s + [q];
    assert Quoted(q, s) == [q] + t;
    InsideUncut(s, q);
    FieldsPrepend(q, t);
    var ws := Fields(t);
    var first := if IsSpace(t[0]) then [q] else [q] + ws[0];
    assert !Stops(Either, first) by { assert Lower(first)[0] == q; }
    hide Stops, Fields;
    if IsSpace(t[0]) {
      assert QuoteAfter(None, [q]) == Some(q) by { assert [q][1..] == ""; }
      assert ([[q]] + ws)[1..] == ws;
    } else {
      assert ([q] + ws[0])[1..] == ws[0];
      assert ([[q] + ws[0]] + ws[1..])[1..] == ws[1..];
    }
  }

  lemma {:induction false} IndexClosed(s: string, o: string, q: char)
    requires q !in s && o != ""
    ensures IndexOperator(s + [q], o, Some(q), 0) == -1
    decreases |s|
  {
    hide OccursAt, IndexOperator;
    var t := s + [q];
    IndexStep(t, o, Some(q));
    assert [t[0]][1..] == "";
    if s == "" {
      assert t[1..] == "";
      IndexNothing(o, None);
    } else {
      assert t[1..] == s[1..] + [q];
      IndexClosed(s[1..], o, q);
    }
  }

  lemma QuotedStands(q: char, s: string, n: nat)
    requires IsQuote(q) && q !in s && n <= |OPS|
    ensures Uncut(Quoted(q, s)) && Closes(Quoted(q, s)) && NoOperator(Quoted(q, s), n)
    ensures SingleSpaced(Quoted(q, s)) <==> SingleSpaced(s)
  {
    var t := Quoted(q, s);
    QuotedUncut(q, s);
    assert t[1..] == s + [q];
    ClosingQuote(s, q);
    SqueezeQuoted(q, s);
    SqueezeShortens(t);
    SqueezeShortens(s);
    assert Quoted(q, Squeeze(s))[1..|Squeeze(s)| + 1] == Squeeze(s) && t[1..|s| + 1] == s;
    hide IndexOperator, Squeeze, SingleSpaced, Fields;
    forall k | 0 <= k < n ensures IndexOperator(t, OpText(OPS[k]), None, 0) == -1 {
      var o := OpText(OPS[k]);
      OpsDiffer(k, k);
      IndexStep(t, o, None);
      assert [q][1..] == "" && QuoteAfter(None, [q]) == Some(q);
      IndexClosed(s, o, q);
    }
  }

  lemma OrdinaryStands(num: Numerals, show: Show, w: Written)
    requires Writable(num, show, w) && IsOrdinary(w)
    ensures Stands(show, SqueezeWritten(w)) && Closes(LiteralText(show, SqueezeWritten(w)))
    ensures SqueezeWritten(w) == w <==> (w.c.lit.LText? ==> SingleSpaced(w.c.lit.s))
    ensures SqueezeWritten(w).c == w.c ==> SqueezeWritten(w) == w
  {
    var m := Rank(w.c.op);
    NameStands(w.c.column, m + 1);
    SpacedOne(w.c.column);
    LiteralReads(num, show, w);
    if w.c.lit.LText? {
      var s := w.c.lit.s;
      SqueezeKeepsOut(s, w.quote);
      QuotedStands(w.quote, Squeeze(s), m);
      SqueezeShortens(s);
      SqueezeTwice(s);
    } else {
      NameStands(LiteralText(show, w), m);
    }
  }

  lemma SqueezeTwice(s: string)
    ensures SingleSpaced(Squeeze(s))
  {
    var t := Quoted('"', s);
    SqueezeQuoted('"', s);
    SpacedOfFields(t);
    FieldsAreWords(t);
    SpacedSingle(Fields(t));
    SingleSub(Squeeze(t), 1, |Squeeze(s)| + 1);
    assert Quoted('"', Squeeze(s))[1..|Squeeze(s)| + 1] == Squeeze(s);
  }

  predicate AllOrdinary(p: Clause) {
    forall i, j | 0 <= i < |p| && 0 <= j < |p[i]| :: IsOrdinary(p[i][j])
  }

  lemma RestOrdinary(p: Clause)
    requires NonEmpty(p) && AllOrdinary(p)
    ensures AllOrdinary(Rest(p))
  {
    hide IsOrdinary;
    var r := Rest(p);
    forall i, j | 0 <= i < |r| && 0 <= j < |r[i]| ensures IsOrdinary(r[i][j]) {
      if |p[0]| > 1 {
        if i == 0 { assert r[0][j] == p[0][j + 1]; } else { assert r[i] == p[i]; }
      } else {
        assert r[i] == p[i + 1];
      }
    }
  }

  lemma {:induction false} OrdinaryReads(num: Numerals, show: Show, p: Clause)
    requires WritableClause(num, show, p) && AllOrdinary(p)
    ensures NonEmpty(SqueezeClause(p)) && ReadsBack(show, SqueezeClause(p))
    decreases |p|, |p[0]|
  {
    hide Stands, Closes, SqueezeWritten, IsOrdinary, Writable, Rest;
    SqueezeRest(p);
    assert IsOrdinary(p[0][0]);
    OrdinaryStands(num, show, p[0][0]);
    SqueezeNothing();
    if Rest(p) != [] {
      RestWritable(num, show, p);
      RestOrdinary(p);
      RestSmaller(p);
      OrdinaryReads(num, show, Rest(p));
    }
  }

  predicate AllSingleSpaced(p: Clause) {
    forall i, j | 0 <= i < |p| && 0 <= j < |p[i]| && p[i][j].c.lit.LText? :: SingleSpaced(p[i][j].c.lit.s)
  }

  /**
   A clause of names, and of strings without the quotes put around them, is read squeezed, and as it was
   written exactly when the white space of every string is single blanks.
   */
  lemma OrdinaryRoundTrip(num: Numerals, show: Show, p: Clause)
    requires WritableClause(num, show, p) && AllOrdinary(p)
    ensures ParsePredicate(num, ClauseText(show, p)) == Some(Meant(SqueezeClause(p)))
    ensures ParsePredicate(num, ClauseText(show, p)) == Some(Meant(p)) <==> AllSingleSpaced(p)
  {
    hide ParsePredicate, ClauseText, SingleSpaced, Writable, SqueezeWritten, IsOrdinary, ReadsBack;
    OrdinaryReads(num, show, p);
    ReadsSqueezed(num, show, p);
    forall i, j | 0 <= i < |p| && 0 <= j < |p[i]|
      ensures SqueezeWritten(p[i][j]).c == p[i][j].c <==>
              (p[i][j].c.lit.LText? ==> SingleSpaced(p[i][j].c.lit.s))
    {
      assert IsOrdinary(p[i][j]);
      OrdinaryStands(num, show, p[i][j]);
    }
    SameMeant(SqueezeClause(p), p);
  }

  lemma SameMeant(p: Clause, q: Clause)
    requires |p| == |q| && forall i | 0 <= i < |p| :: |p[i]| == |q[i]|
    ensures Meant(p) == Meant(q) <==> forall i, j | 0 <= i < |p| && 0 <= j < |p[i]| :: p[i][j].c == q[i][j].c
  {
    if Meant(p) == Meant(q) {
      forall i, j | 0 <= i < |p| && 0 <= j < |p[i]| ensures p[i][j].c == q[i][j].c {
        assert Meant(p)[i] == GroupMeant(p[i]) && Meant(q)[i] == GroupMeant(q[i]);
        assert GroupMeant(p[i])[j] == p[i][j].c && GroupMeant(q[i])[j] == q[i][j].c;
      }
    }
    if forall i, j | 0 <= i < |p| && 0 <= j < |p[i]| :: p[i][j].c == q[i][j].c {
      forall i | 0 <= i < |p| ensures Meant(p)[i] == Meant(q)[i] {
        assert forall j | 0 <= j < |p[i]| :: GroupMeant(p[i])[j] == GroupMeant(q[i])[j];
      }
    }
  }

  // ---- Strings with both quotes ----

  /** One comparison alone is read back exactly when it stands. */
  lemma AloneExactly(num: Numerals, show: Show, w: Written)
    requires Writable(num, show, w)
    ensures var p := [[w]];
            NonEmpty(p) && (ParsePredicate(num, ClauseText(show, p)) == Some([[w.c]]) <==> Stands(show, w))
  {
    hide ParsePredicate, ClauseText, Stands, Writable;
    var p := [[w]];
    assert WritableClause(num, show, p);
    assert Rest(p) == [];
    ClauseRoundTrip(num, show, p);
    assert Meant(p) == [GroupMeant([w])] && GroupMeant([w]) == [w.c];
  }

  /** An equality on a string: what decides are the cuts and the white space of the quoted text. */
  lemma EqualityExactly(num: Numerals, show: Show, s: string, q: char)
    requires IsQuote(q)
    ensures var w := Written(Comparison("a", CompareOp.Eq, LText(s)), q);
            ParsePredicate(num, ClauseText(show, [[w]])) == Some([[w.c]]) <==>
            SingleSpaced(Quoted(q, s)) && Uncut(Quoted(q, s))
  {
    var w := Written(Comparison("a", CompareOp.Eq, LText(s)), q);
    assert IsName("a") by { assert Lower("a") == "a"; }
    assert Writable(num, show, w);
    hide *;
    AloneExactly(num, show, w);
    NameStands("a", 1);
    EqualityStands(show, s, q);
  }

  lemma EqualityStands(show: Show, s: string, q: char)
    requires IsTight("a") && SingleSpaced("a") && Uncut("a") && Closes("a") && NoOperator("a", 1)
    ensures Stands(show, Written(Comparison("a", CompareOp.Eq, LText(s)), q)) <==>
            SingleSpaced(Quoted(q, s)) && Uncut(Quoted(q, s))
  {
    hide IsTight, SingleSpaced, Uncut, Closes, IndexOperator;
  }

  lemma ThreeWords(a: string, b: string, c: string)
    requires IsWord(a) && IsWord(b) && Fields(c) != []
    ensures Fields(a + (" " + (b + (" " + c)))) == [a, b] + Fields(c)
  {
    hide Fields;
    FieldsBetween(a, b, c);
    FieldsOfWord(a);
    assert [a] + ([b] + Fields(c)) == [a, b] + Fields(c);
  }

  /** A keyword behind a word that leaves no quote open is outside the quotes. */
  lemma ClosedCuts(a: string, b: string, rest: seq<string>)
    requires QuoteAfter(None, a) == None && Stops(Either, b)
    ensures FirstCut([a, b] + rest, Either, None) <= 1
  {
    assert ([a, b] + rest)[1..] == [b] + rest;
  }

  /** A keyword behind a word that leaves a quote open is inside the quotes. */
  lemma OpenKeeps(a: string, b: string, rest: seq<string>, q: char)
    requires !Stops(Either, a) && QuoteAfter(None, a) == Some(q) && q !in b
    ensures FirstCut([a, b] + rest, Either, None) == 2 + FirstCut(rest, Either, Some(q))
  {
    NoQuoteAfter(b, Some(q));
    assert ([a, b] + rest)[1..] == [b] + rest && ([b] + rest)[1..] == rest;
  }

  lemma StartsQuoted(w: string)
    requires w != "" && IsQuote(w[0])
    ensures !Stops(Either, w)
  {
    assert Lower(w)[0] == w[0];
  }

  lemma OrStops()
    ensures Stops(Either, "or") && IsWord("or")
  {
    assert Lower("or") == "or";
  }

  lemma QuoteOfOne(q: Option<char>, a: char)
    ensures QuoteAfter(q, [a]) ==
            if q.None? then if IsQuote(a) then Some(a) else None else if a == q.value then None else q
  {
    assert [a][1..] == [];
  }

  /** Three quotes and what they leave open. */
  lemma ThreeQuotes(a: char, b: char, c: char)
    requires IsQuote(a) && IsQuote(b) && IsQuote(c)
    ensures QuoteAfter(None, [a, b]) == if a == b then None else Some(a)
    ensures QuoteAfter(None, [a, b, c]) == if a == b then Some(c) else if a == c then None else Some(a)
  {
    assert [a, b, c][1..] == [b, c] && [b, c][1..] == [c] && [a, b][1..] == [b] && [b][1..] == [] && [c][1..] == [];
    assert QuoteAfter(Some(a), [b]) == if a == b then None else Some(a);
    assert QuoteAfter(Some(a), [b, c]) == QuoteAfter(if a == b then None else Some(a), [c]);
    QuoteOfOne(None, c);
    QuoteOfOne(Some(a), c);
    assert QuoteAfter(None, [c]) == Some(c) && QuoteAfter(Some(a), [c]) == if a == c then None else Some(a);
    assert QuoteAfter(None, [a, b, c]) == QuoteAfter(Some(a), [b, c]);
  }

  lemma ThreeQuoteWords(a: char, b: char, c: char)
    requires IsQuote(a) && IsQuote(b) && IsQuote(c)
    ensures IsWord([a]) && IsWord([a, b]) && IsWord([a, b, c])
    ensures Fields([a, b]) == [[a, b]]
  {
    FieldsOfWord([a, b]);
  }

  const BOTH_QUOTES := "'\" or \""

  /** The string with a single quote, a double quote, "or" and a double quote is read back in single quotes. */
  lemma SingleQuotesDo(num: Numerals, show: Show)
    ensures var w := Written(Comparison("a", CompareOp.Eq, LText(BOTH_QUOTES)), '\'');
            ParsePredicate(num, ClauseText(show, [[w]])) == Some([[w.c]])
  {
    var a, b, c := ['\'', '\'', '"'], "or", ['"', '\''];
    var t := Quoted('\'', BOTH_QUOTES);
    assert t == a + (" " + (b + (" " + c))) && SingleSpaced(t);
    assert a[0] == '\'' && IsQuote('\'') && IsQuote('"') && '"' !in b;
    hide *;
    EqualityExactly(num, show, BOTH_QUOTES, '\'');
    ThreeQuotes('\'', '\'', '"');
    ThreeQuoteWords('\'', '\'', '"');
    ThreeQuoteWords('"', '\'', '\'');
    OrStops();
    StartsQuoted(a);
    ThreeWords(a, b, c);
    OpenKeeps(a, b, [c], '"');
    InsideOne(c, '"');
    UncutText(t, [a, b] + [c]);
  }

  lemma InsideOne(c: string, q: char)
    ensures FirstCut([c], Either, Some(q)) == 1
  {
    assert [c][1..] == [];
  }

  lemma UncutText(t: string, ws: seq<string>)
    requires Fields(t) == ws
    ensures Uncut(t) <==> FirstCut(ws, Either, None) == |ws|
  {
  }

  /** In double quotes it is not: they close early, and the "or" cuts the clause. */
  lemma DoubleQuotesDoNot(num: Numerals, show: Show)
    ensures var w := Written(Comparison("a", CompareOp.Eq, LText(BOTH_QUOTES)), '"');
            ParsePredicate(num, ClauseText(show, [[w]])) != Some([[w.c]])
  {
    var a, b, c := ['"', '\'', '"'], "or", ['"', '"'];
    var t := Quoted('"', BOTH_QUOTES);
    assert t == a + (" " + (b + (" " + c)));
    assert IsQuote('\'') && IsQuote('"');
    hide *;
    EqualityExactly(num, show, BOTH_QUOTES, '"');
    ThreeQuotes('"', '\'', '"');
    ThreeQuoteWords('"', '\'', '"');
    ThreeQuoteWords('"', '"', '"');
    OrStops();
    ThreeWords(a, b, c);
    ClosedCuts(a, b, [c]);
    UncutText(t, [a, b] + [c]);
  }

  /** Some strings are read back in neither: here an "or" is outside the quotes either way. */
  lemma NeitherQuoteDoes(num: Numerals, show: Show, q: char)
    requires IsQuote(q)
    ensures var w := Written(Comparison("a", CompareOp.Eq, LText("' or \" or ")), q);
            ParsePredicate(num, ClauseText(show, [[w]])) != Some([[w.c]])
  {
    var s := "' or \" or ";
    var a, b, c := [q, '\''], "or", ['"'] + (" " + ("or" + (" " + [q])));
    var t := Quoted(q, s);
    assert t == a + (" " + (b + (" " + c)));
    assert IsQuote('\'') && IsQuote('"') && '"' !in "or" && a[0] == q && ['"'][0] == '"';
    hide *;
    EqualityExactly(num, show, s, q);
    ThreeQuotes(q, '\'', '\'');
    ThreeQuoteWords(q, '\'', '\'');
    ThreeQuoteWords('"', '"', '"');
    ThreeQuoteWords(q, q, q);
    OrStops();
    OneWordFields([q]);
    ThreeWords(['"'], "or", [q]);
    ThreeWords(a, b, c);
    var rest := ["\"", "or"] + [[q]];
    assert Fields(t) == [a, b] + rest;
    UncutText(t, [a, b] + rest);
    if q == '\'' {
      ClosedCuts(a, b, rest);
    } else {
      BehindQuote(q, rest);
    }
  }

  lemma OneWordFields(w: string)
    requires IsWord(w)
    ensures Fields(w) == [w]
  {
    FieldsOfWord(w);
  }

  /** The second "or" of that string, in double quotes. */
  lemma BehindQuote(q: char, rest: seq<string>)
    requires q == '"' && rest == ["\"", "or"] + [[q]]
    ensures FirstCut([[q, '\''], "or"] + rest, Either, None) < 2 + |rest|
  {
    StartsQuoted([q, '\'']);
    ThreeQuotes(q, '\'', q);
    OpenKeeps([q, '\''], "or", rest, q);
    assert rest[0] == "\"" && rest[1..] == ["or"] + [[q]];
    assert QuoteAfter(Some(q), "\"") == None by { assert "\""[1..] == ""; }
    OrStops();
  }
}
