/**
 Writing a filter down and reading it back: minimal parentheses, doubled quotes, and the same meaning on every entity.
 */
module TableFilterPrint {
  import opened Operators
  import opened Strings
  import opened TableFilter
  import opened Wrappers

  // ---- The printer ----

  function OpText(op: CompareOp): string {
    match op
    case Eq => "eq"
    case Ne => "ne"
    case Gt => "gt"
    case Ge => "ge"
    case Lt => "lt"
    case Le => "le"
  }

  function LiteralText(lit: Literal): string {
    match lit
    case LString(s) => "'" + DoubleQuotes(s) + "'"
    case LNumber(t) => t
    case LBool(b) => if b then "true" else "false"
  }

  /** A filter as text. `tight` is the position below an "and", where an "or" needs parentheses; nothing else does. */
  function Print(f: Filter, tight: bool): string
    decreases f, tight
  {
    match f
    case Or(l, r) => if tight then "(" + (Print(f, false) + ")") else Print(l, false) + (" or " + Print(r, false))
    case And(l, r) => Print(l, true) + (" and " + Print(r, true))
    case Test(field, op, lit) => field + (" " + (OpText(op) + (" " + LiteralText(lit))))
  }

  function ParenDepth(f: Filter, tight: bool): nat
    decreases f, tight
  {
    match f
    case Or(l, r) => if tight then 1 + ParenDepth(f, false) else Max(ParenDepth(l, false), ParenDepth(r, false))
    case And(l, r) => Max(ParenDepth(l, true), ParenDepth(r, true))
    case Test(_, _, _) => 0
  }

  /** One word of the language that survives trimming. */
  predicate IsWord(w: string) {
    w != "" && w[0] != '\'' && !IsSpace(w[0]) && !IsSpace(w[|w| - 1]) && forall i | 0 <= i < |w| :: !IsBreak(w[i])
  }

  /** The words that are neither names nor numerals, in any letter case. */
  const RESERVED: set<string> := {"and", "or", "true", "false", "eq", "ne", "gt", "ge", "lt", "le"}

  /** The filter's names and numerals are words and not reserved; a name is no numeral. */
  predicate Writable(num: Numerals, f: Filter) {
    match f
    case Or(l, r) => Writable(num, l) && Writable(num, r)
    case And(l, r) => Writable(num, l) && Writable(num, r)
    case Test(field, _, lit) =>
      && IsWord(field) && Lower(field) !in RESERVED && num(field).None?
      && (lit.LNumber? ==> IsWord(lit.text) && Lower(lit.text) !in RESERVED && num(lit.text).Some?)
  }

  // ---- The derivation of the printed text ----

  function LiteralToken(lit: Literal): Token {
    match lit
    case LString(s) => StrTok(s)
    case LNumber(t) => NumTok(t)
    case LBool(b) => BoolTok(b)
  }

  function OrJoin(a: OrTree, b: OrTree): OrTree {
    match b
    case OneAnd(x) => MoreOr(a, x)
    case MoreOr(b', x) => MoreOr(OrJoin(a, b'), x)
  }

  function AndJoin(a: AndTree, b: AndTree): AndTree {
    match b
    case OnePrim(x) => MoreAnd(a, x)
    case MoreAnd(b', x) => MoreAnd(AndJoin(a, b'), x)
  }

  function OrTreeOf(f: Filter): OrTree
    decreases f, if f.Or? then 0 else 1
  {
    match f
    case Or(l, r) => OrJoin(OrTreeOf(l), OrTreeOf(r))
    case _ => OneAnd(AndTreeOf(f))
  }

  function AndTreeOf(f: Filter): AndTree
    decreases f, if f.Or? then 1 else 0
  {
    match f
    case Or(_, _) => OnePrim(Paren(OrTreeOf(f)))
    case And(l, r) => AndJoin(AndTreeOf(l), AndTreeOf(r))
    case Test(field, op, lit) => OnePrim(Leaf(field, op, LiteralToken(lit)))
  }

  lemma {:induction false} OrJoinFacts(num: Numerals, a: OrTree, b: OrTree)
    ensures YieldOr(OrJoin(a, b)) == YieldOr(a) + ([OrTok] + YieldOr(b))
    ensures DepthOr(OrJoin(a, b)) == Max(DepthOr(a), DepthOr(b))
    ensures LiteralsOr(num, OrJoin(a, b)) <==> LiteralsOr(num, a) && LiteralsOr(num, b)
    decreases b
  {
    if b.MoreOr? {
      OrJoinFacts(num, a, b.o);
      AppendFour(YieldOr(a), [OrTok], YieldOr(b.o), [OrTok] + YieldAnd(b.a));
    }
  }

  lemma {:induction false} AndJoinFacts(num: Numerals, a: AndTree, b: AndTree)
    ensures YieldAnd(AndJoin(a, b)) == YieldAnd(a) + ([AndTok] + YieldAnd(b))
    ensures DepthAnd(AndJoin(a, b)) == Max(DepthAnd(a), DepthAnd(b))
    ensures LiteralsAnd(num, AndJoin(a, b)) <==> LiteralsAnd(num, a) && LiteralsAnd(num, b)
    decreases b
  {
    if b.MoreAnd? {
      AndJoinFacts(num, a, b.a);
      AppendFour(YieldAnd(a), [AndTok], YieldAnd(b.a), [AndTok] + YieldPrim(b.p));
    }
  }

  lemma AppendFour<T>(a: seq<T>, b: seq<T>, c: seq<T>, d: seq<T>)
    ensures (a + (b + c)) + d == a + (b + (c + d))
  {
  }

  lemma {:induction false} OrJoinMeans(num: Numerals, a: OrTree, b: OrTree, e: Entity)
    requires LiteralsOr(num, a) && LiteralsOr(num, b)
    ensures LiteralsOr(num, OrJoin(a, b))
    ensures Eval(num, MeaningOr(num, OrJoin(a, b)), e) <==>
            Eval(num, MeaningOr(num, a), e) || Eval(num, MeaningOr(num, b), e)
    decreases b
  {
    OrJoinFacts(num, a, b);
    if b.MoreOr? {
      OrJoinFacts(num, a, b.o);
      OrJoinMeans(num, a, b.o, e);
    }
  }

  lemma {:induction false} AndJoinMeans(num: Numerals, a: AndTree, b: AndTree, e: Entity)
    requires LiteralsAnd(num, a) && LiteralsAnd(num, b)
    ensures LiteralsAnd(num, AndJoin(a, b))
    ensures Eval(num, MeaningAnd(num, AndJoin(a, b)), e) <==>
            Eval(num, MeaningAnd(num, a), e) && Eval(num, MeaningAnd(num, b), e)
    decreases b
  {
    AndJoinFacts(num, a, b);
    if b.MoreAnd? {
      AndJoinFacts(num, a, b.a);
      AndJoinMeans(num, a, b.a, e);
    }
  }

  /** The derivation is as deep as the parentheses, has only literals, and means what the filter means. */
  lemma {:induction false} OrTreeFacts(num: Numerals, f: Filter, e: Entity)
    requires Writable(num, f)
    ensures DepthOr(OrTreeOf(f)) == ParenDepth(f, false)
    ensures LiteralsOr(num, OrTreeOf(f)) && Eval(num, MeaningOr(num, OrTreeOf(f)), e) == Eval(num, f, e)
    decreases f, if f.Or? then 0 else 1
  {
    match f
    case Or(l, r) =>
      OrTreeFacts(num, l, e);
      OrTreeFacts(num, r, e);
      OrJoinFacts(num, OrTreeOf(l), OrTreeOf(r));
      OrJoinMeans(num, OrTreeOf(l), OrTreeOf(r), e);
    case _ => AndTreeFacts(num, f, e);
  }

  lemma {:induction false} AndTreeFacts(num: Numerals, f: Filter, e: Entity)
    requires Writable(num, f)
    ensures DepthAnd(AndTreeOf(f)) == ParenDepth(f, true)
    ensures LiteralsAnd(num, AndTreeOf(f)) && Eval(num, MeaningAnd(num, AndTreeOf(f)), e) == Eval(num, f, e)
    decreases f, if f.Or? then 1 else 0
  {
    match f
    case Or(l, r) => OrTreeFacts(num, f, e);
    case And(l, r) =>
      AndTreeFacts(num, l, e);
      AndTreeFacts(num, r, e);
      AndJoinFacts(num, AndTreeOf(l), AndTreeOf(r));
      AndJoinMeans(num, AndTreeOf(l), AndTreeOf(r), e);
    case Test(_, _, _) =>
  }

  // ---- Reading the printed text ----

  /** What a word may be followed by. */
  predicate AtBreak(rest: string) {
    rest == "" || IsBreak(rest[0])
  }

  function Plus(ts: seq<Token>, more: Option<seq<Token>>): Option<seq<Token>> {
    if more.Some? then Some(ts + more.value) else None
  }

  lemma PlusPlus(a: seq<Token>, b: seq<Token>, more: Option<seq<Token>>)
    ensures Plus(a, Plus(b, more)) == Plus(a + b, more)
  {
    if more.Some? {
      assert a + (b + more.value) == a + b + more.value;
    }
  }

  lemma {:induction false} WordLengthIs(w: string, rest: string)
    requires AtBreak(rest) && forall i | 0 <= i < |w| :: !IsBreak(w[i])
    ensures WordLength(w + rest) == |w|
  {
    if w == "" {
      assert w + rest == rest;
    } else {
      assert (w + rest)[1..] == w[1..] + rest;
      WordLengthIs(w[1..], rest);
    }
  }

  lemma WordReads(num: Numerals, w: string, rest: string)
    requires w != "" && w[0] != '\'' && (forall i | 0 <= i < |w| :: !IsBreak(w[i])) && AtBreak(rest)
    ensures Tokenize(num, w + rest) == Plus([ClassifyWord(num, w)], Tokenize(num, rest))
  {
    hide ClassifyWord;
    WordLengthIs(w, rest);
    assert (w + rest)[..|w|] == w && (w + rest)[|w|..] == rest;
    assert (w + rest)[0] == w[0] && !IsBreak(w[0]);
  }

  lemma SpaceReads(num: Numerals, rest: string)
    ensures Tokenize(num, " " + rest) == Tokenize(num, rest)
  {
    assert (" " + rest)[1..] == rest;
  }

  /** Doubling the quotes of a text and unquoting it gives the text back, whatever it contains. */
  lemma {:induction false} QuotesRoundTrip(s: string, rest: string)
    requires rest == "" || rest[0] != '\''
    ensures Unquote(DoubleQuotes(s) + ("'" + rest)) == Some((s, rest))
  {
    hide Unquote, DoubleQuotes;
    DoubledParts(s, rest);
    if s == "" {
      QuoteEnds(rest);
    } else {
      QuotesRoundTrip(s[1..], rest);
      UnquoteChar(s[0], DoubleQuotes(s[1..]) + ("'" + rest));
      assert s == [s[0]] + s[1..];
    }
  }

  lemma DoubledParts(s: string, rest: string)
    ensures DoubleQuotes(s) + ("'" + rest) ==
            if s == "" then "'" + rest
            else (if s[0] == '\'' then "''" else [s[0]]) + (DoubleQuotes(s[1..]) + ("'" + rest))
  {
    if s == "" {
      assert "" + ("'" + rest) == "'" + rest;
    } else {
      var head := if s[0] == '\'' then "''" else [s[0]];
      assert DoubleQuotes(s) == head + DoubleQuotes(s[1..]);
      assert head + DoubleQuotes(s[1..]) + ("'" + rest) == head + (DoubleQuotes(s[1..]) + ("'" + rest));
    }
  }

  lemma QuoteEnds(rest: string)
    requires rest == "" || rest[0] != '\''
    ensures Unquote("'" + rest) == Some(("", rest))
  {
    assert ("'" + rest)[1..] == rest;
  }

  lemma UnquoteChar(c: char, tail: string)
    ensures Unquote((if c == '\'' then "''" else [c]) + tail) == Prefixed(c, Unquote(tail))
  {
    assert ("''" + tail)[2..] == tail && ([c] + tail)[1..] == tail;
  }

  lemma StringReads(num: Numerals, s: string, rest: string)
    requires AtBreak(rest)
    ensures Tokenize(num, "'" + DoubleQuotes(s) + "'" + rest) == Plus([StrTok(s)], Tokenize(num, rest))
  {
    hide Unquote, DoubleQuotes, WordLength, ClassifyWord;
    QuotesRoundTrip(s, rest);
    var text := "'" + DoubleQuotes(s) + "'" + rest;
    assert text[1..] == DoubleQuotes(s) + ("'" + rest);
  }

  lemma Keywords(num: Numerals, op: CompareOp, b: bool)
    ensures ClassifyWord(num, OpText(op)) == OpTok(op)
    ensures ClassifyWord(num, "and") == AndTok && ClassifyWord(num, "or") == OrTok
    ensures ClassifyWord(num, LiteralText(LBool(b))) == BoolTok(b)
  {
    assert Lower(OpText(op)) == OpText(op);
    assert Lower("and") == "and" && Lower("or") == "or";
    assert Lower("true") == "true" && Lower("false") == "false";
  }

  lemma OtherWords(num: Numerals, w: string)
    requires Lower(w) !in RESERVED
    ensures ClassifyWord(num, w) == if num(w).Some? then NumTok(w) else Ident(w)
  {
    hide Lower;
  }

  lemma LiteralReads(num: Numerals, lit: Literal, rest: string)
    requires AtBreak(rest)
    requires lit.LNumber? ==> IsWord(lit.text) && ClassifyWord(num, lit.text) == NumTok(lit.text)
    ensures Tokenize(num, LiteralText(lit) + rest) == Plus([LiteralToken(lit)], Tokenize(num, rest))
  {
    hide ClassifyWord, Tokenize, Unquote, DoubleQuotes;
    match lit
    case LString(s) => StringReads(num, s, rest);
    case LNumber(t) => WordReads(num, t, rest);
    case LBool(b) =>
      Keywords(num, Eq, b);
      WordReads(num, LiteralText(lit), rest);
  }

  lemma KeywordReads(num: Numerals, w: string, t: Token, rest: string)
    requires w != "" && w[0] != '\'' && (forall i | 0 <= i < |w| :: !IsBreak(w[i])) && ClassifyWord(num, w) == t
    ensures Tokenize(num, (" " + w + " ") + rest) == Plus([t], Tokenize(num, rest))
  {
    hide ClassifyWord, Tokenize;
    assert (" " + w + " ") + rest == " " + (w + (" " + rest));
    SpaceReads(num, w + (" " + rest));
    WordReads(num, w, " " + rest);
    SpaceReads(num, rest);
  }

  lemma TestReads(num: Numerals, field: string, op: CompareOp, lit: Literal, rest: string)
    requires Writable(num, Test(field, op, lit)) && AtBreak(rest)
    ensures Tokenize(num, Print(Test(field, op, lit), false) + rest) ==
            Plus([Ident(field), OpTok(op), LiteralToken(lit)], Tokenize(num, rest))
  {
    hide ClassifyWord, Tokenize, LiteralText;
    var afterOp := LiteralText(lit) + rest;
    var afterField := (" " + OpText(op) + " ") + afterOp;
    assert Print(Test(field, op, lit), false) + rest == field + afterField;
    OtherWords(num, field);
    if lit.LNumber? { OtherWords(num, lit.text); }
    WordReads(num, field, afterField);
    Keywords(num, op, true);
    KeywordReads(num, OpText(op), OpTok(op), afterOp);
    LiteralReads(num, lit, rest);
    PlusPlus([OpTok(op)], [LiteralToken(lit)], Tokenize(num, rest));
    PlusPlus([Ident(field)], [OpTok(op)] + [LiteralToken(lit)], Tokenize(num, rest));
    assert [Ident(field)] + ([OpTok(op)] + [LiteralToken(lit)]) == [Ident(field), OpTok(op), LiteralToken(lit)];
  }

  /** Two texts that read as a and b read as a, t, b when joined by the keyword of t. */
  lemma JoinReads(num: Numerals, left: string, a: seq<Token>, t: Token, right: string, b: seq<Token>, rest: string)
    requires t.OrTok? || t.AndTok?
    requires var w := if t.OrTok? then " or " else " and ";
             Tokenize(num, left + (w + (right + rest))) == Plus(a, Tokenize(num, w + (right + rest)))
    requires Tokenize(num, right + rest) == Plus(b, Tokenize(num, rest))
    ensures var w := if t.OrTok? then " or " else " and ";
            Tokenize(num, left + (w + right) + rest) == Plus(a + ([t] + b), Tokenize(num, rest))
  {
    hide Tokenize, ClassifyWord;
    var word := if t.OrTok? then "or" else "and";
    var w := if t.OrTok? then " or " else " and ";
    assert w == " " + word + " ";
    assert left + (w + right) + rest == left + (w + (right + rest));
    Keywords(num, Eq, true);
    KeywordReads(num, word, t, right + rest);
    PlusPlus([t], b, Tokenize(num, rest));
    PlusPlus(a, [t] + b, Tokenize(num, rest));
  }

  /** The tokenizer reads a printed filter as the derivation's tokens, up to whatever follows. */
  lemma {:induction false} OrReads(num: Numerals, f: Filter, rest: string)
    requires Writable(num, f) && AtBreak(rest)
    ensures Tokenize(num, Print(f, false) + rest) == Plus(YieldOr(OrTreeOf(f)), Tokenize(num, rest))
    decreases f, if f.Or? then 0 else 2
  {
    hide Tokenize;
    match f
    case Or(l, r) =>
      OrReads(num, l, " or " + (Print(r, false) + rest));
      OrReads(num, r, rest);
      OrJoinFacts(num, OrTreeOf(l), OrTreeOf(r));
      JoinReads(num, Print(l, false), YieldOr(OrTreeOf(l)), OrTok, Print(r, false), YieldOr(OrTreeOf(r)), rest);
    case _ =>
      AndReads(num, f, rest);
      assert Print(f, false) == Print(f, true);
  }

  lemma {:induction false} AndReads(num: Numerals, f: Filter, rest: string)
    requires Writable(num, f) && AtBreak(rest)
    ensures Tokenize(num, Print(f, true) + rest) == Plus(YieldAnd(AndTreeOf(f)), Tokenize(num, rest))
    decreases f, if f.Or? then 2 else 1
  {
    hide Tokenize;
    match f
    case Or(_, _) => ParenReads(num, f, rest);
    case And(l, r) =>
      AndReads(num, l, " and " + (Print(r, true) + rest));
      AndReads(num, r, rest);
      AndJoinFacts(num, AndTreeOf(l), AndTreeOf(r));
      JoinReads(num, Print(l, true), YieldAnd(AndTreeOf(l)), AndTok, Print(r, true), YieldAnd(AndTreeOf(r)), rest);
    case Test(field, op, lit) => TestReads(num, field, op, lit, rest);
  }

  lemma {:induction false} ParenReads(num: Numerals, f: Filter, rest: string)
    requires f.Or? && Writable(num, f) && AtBreak(rest)
    ensures Tokenize(num, Print(f, true) + rest) == Plus(YieldAnd(AndTreeOf(f)), Tokenize(num, rest))
    decreases f, 1
  {
    hide Tokenize;
    var inner := Print(f, false) + (")" + rest);
    assert Print(f, true) + rest == "(" + inner;
    ParensRead(num, inner, rest);
    OrReads(num, f, ")" + rest);
    PlusPlus(YieldOr(OrTreeOf(f)), [RParen], Tokenize(num, rest));
    PlusPlus([LParen], YieldOr(OrTreeOf(f)) + [RParen], Tokenize(num, rest));
  }

  lemma ParensRead(num: Numerals, inner: string, rest: string)
    ensures Tokenize(num, "(" + inner) == Plus([LParen], Tokenize(num, inner))
    ensures Tokenize(num, ")" + rest) == Plus([RParen], Tokenize(num, rest))
  {
    assert ("(" + inner)[1..] == inner && (")" + rest)[1..] == rest;
  }

  // ---- Trimming leaves the printed text alone ----

  lemma {:induction false} PrintEnds(num: Numerals, f: Filter, tight: bool)
    requires Writable(num, f)
    ensures var text := Print(f, tight); text != "" && !IsSpace(text[0]) && !IsSpace(text[|text| - 1])
    decreases f, tight
  {
    match f
    case Or(l, r) =>
      if !tight {
        PrintEnds(num, l, false);
        PrintEnds(num, r, false);
      }
    case And(l, r) =>
      PrintEnds(num, l, true);
      PrintEnds(num, r, true);
    case Test(field, op, lit) =>
      hide ClassifyWord, DoubleQuotes;
      assert LiteralText(lit) != "" && !IsSpace(LiteralText(lit)[|LiteralText(lit)| - 1]);
  }

  // ---- Too many parentheses ----

  lemma {:induction false} OrTooDeep(num: Numerals, o: OrTree, rest: seq<Token>, depth: nat)
    requires LiteralsOr(num, o) && depth <= MAX_FILTER_DEPTH < depth + DepthOr(o)
    ensures ParseOr(num, YieldOr(o) + rest, depth).Error?
    decreases o
  {
    hide ParseAnd;
    match o
    case OneAnd(a) => AndTooDeep(num, a, rest, depth);
    case MoreOr(o', a) =>
      var more := [OrTok] + YieldAnd(a) + rest;
      assert YieldOr(o) + rest == YieldOr(o') + more;
      if depth + DepthOr(o') > MAX_FILTER_DEPTH {
        OrTooDeep(num, o', more, depth);
      } else {
        OrComplete(num, o', more, depth);
        assert more[1..] == YieldAnd(a) + rest;
        AndTooDeep(num, a, rest, depth);
      }
  }

  lemma {:induction false} AndTooDeep(num: Numerals, a: AndTree, rest: seq<Token>, depth: nat)
    requires LiteralsAnd(num, a) && depth <= MAX_FILTER_DEPTH < depth + DepthAnd(a)
    ensures ParseAnd(num, YieldAnd(a) + rest, depth).Error?
    decreases a
  {
    hide ParsePrimary;
    match a
    case OnePrim(p) => PrimTooDeep(num, p, rest, depth);
    case MoreAnd(a', p) =>
      var more := [AndTok] + YieldPrim(p) + rest;
      assert YieldAnd(a) + rest == YieldAnd(a') + more;
      if depth + DepthAnd(a') > MAX_FILTER_DEPTH {
        AndTooDeep(num, a', more, depth);
      } else {
        AndComplete(num, a', more, depth);
        assert more[1..] == YieldPrim(p) + rest;
        PrimTooDeep(num, p, rest, depth);
      }
  }

  lemma {:induction false} PrimTooDeep(num: Numerals, p: Prim, rest: seq<Token>, depth: nat)
    requires LiteralsPrim(num, p) && depth <= MAX_FILTER_DEPTH < depth + DepthPrim(p)
    ensures ParsePrimary(num, YieldPrim(p) + rest, depth).Error?
    decreases p
  {
    hide ParseOr;
    match p
    case Paren(o) =>
      assert (YieldPrim(p) + rest)[1..] == YieldOr(o) + ([RParen] + rest);
      if depth < MAX_FILTER_DEPTH {
        OrTooDeep(num, o, [RParen] + rest, depth + 1);
      }
    case Leaf(_, _, _) =>
  }

  // ---- The round trip ----

  lemma PrintTokenizes(num: Numerals, f: Filter)
    requires Writable(num, f)
    ensures Tokenize(num, Print(f, false)) == Some(YieldOr(OrTreeOf(f)))
  {
    hide YieldOr, OrTreeOf, Print;
    assert Print(f, false) + "" == Print(f, false);
    OrReads(num, f, "");
    assert YieldOr(OrTreeOf(f)) + [] == YieldOr(OrTreeOf(f));
  }

  /**
   A written filter is accepted exactly when its parentheses nest at most 64 deep,
   and then what was parsed selects the same entities.
   */
  lemma FilterRoundTrip(num: Numerals, f: Filter)
    requires Writable(num, f)
    ensures ParseFilter(num, Print(f, false)).Some? <==> ParenDepth(f, false) <= 64
    ensures var r := ParseFilter(num, Print(f, false));
            r.Some? ==> r.value.Only? && forall e :: Eval(num, r.value.f, e) == Eval(num, f, e)
  {
    hide Print, ParseOr, Tokenize, ParenDepth, OrTreeOf, Writable, YieldOr, MeaningOr, LiteralsOr, Eval;
    var text := Print(f, false);
    PrintEnds(num, f, false);
    assert TrimSpace(text) == text;
    PrintTokenizes(num, f);
    var o := OrTreeOf(f);
    OrTreeFacts(num, f, map[]);
    assert YieldOr(o) + [] == YieldOr(o);
    if ParenDepth(f, false) <= MAX_FILTER_DEPTH {
      OrComplete(num, o, [], 0);
      OrStops(num, MeaningOr(num, o));
      forall e ensures Eval(num, MeaningOr(num, o), e) == Eval(num, f, e) {
        OrTreeFacts(num, f, e);
      }
    } else {
      OrTooDeep(num, o, [], 0);
    }
  }
}
