/**
 The $filter language of the Table service: tokens, a recursive-descent parser with a
 nesting cap, and what a parsed filter means for an entity.
 */
module TableFilter {
  import opened Operators
  import opened Strings
  import opened Wrappers

  const MAX_FILTER_DEPTH := 64

  /** Go's ParseFloat, which the model takes as given. */
  type Numerals = string -> Option<real>

  datatype Token =
    | Ident(text: string)
    | StrTok(text: string)
    | NumTok(text: string)
    | BoolTok(b: bool)
    | OpTok(op: CompareOp)
    | AndTok
    | OrTok
    | LParen
    | RParen

  datatype Literal = LString(s: string) | LNumber(text: string) | LBool(b: bool)

  /** A parsed filter. */
  datatype Filter =
    | Or(l: Filter, r: Filter)
    | And(l: Filter, r: Filter)
    | Test(field: string, op: CompareOp, lit: Literal)

  // ---- Meaning ----

  /** A decoded property; `Other` is any value no operator compares, `Undecodable` is not JSON. */
  datatype Prop = PString(s: string) | PNumber(n: real) | PBool(b: bool) | Other | Undecodable

  type Entity = map<string, Prop>

  /** Values of different types compare with no operator, not even ne. */
  function Compare(num: Numerals, op: CompareOp, actual: Prop, lit: Literal): bool {
    match lit
    case LNumber(t) => actual.PNumber? && num(t).Some? && NumericOp(op, actual.n, num(t).value)
    case LString(s) => actual.PString? && StringOp(op, actual.s, s)
    case LBool(b) => actual.PBool? && (if op == Eq then actual.b == b else op == Ne && actual.b != b)
  }

  function Eval(num: Numerals, f: Filter, e: Entity): bool {
    match f
    case Or(l, r) => Eval(num, l, e) || Eval(num, r, e)
    case And(l, r) => Eval(num, l, e) && Eval(num, r, e)
    case Test(field, op, lit) => field in e && e[field] != Undecodable && Compare(num, op, e[field], lit)
  }

  /** A property and a literal of the same kind. */
  predicate Comparable(num: Numerals, actual: Prop, lit: Literal) {
    match lit
    case LNumber(t) => actual.PNumber? && num(t).Some?
    case LString(_) => actual.PString?
    case LBool(_) => actual.PBool?
  }

  /** Across kinds no operator selects, not even ne; within a kind ne selects exactly what eq does not. */
  lemma SelectsWithinKind(num: Numerals, actual: Prop, lit: Literal)
    ensures (exists op :: Compare(num, op, actual, lit)) <==> Comparable(num, actual, lit)
    ensures Comparable(num, actual, lit) ==> (Compare(num, Ne, actual, lit) <==> !Compare(num, Eq, actual, lit))
  {
    if Comparable(num, actual, lit) {
      assert Compare(num, Eq, actual, lit) || Compare(num, Ne, actual, lit);
    }
  }

  // ---- Tokens ----

  predicate IsBreak(c: char) {
    c == ' ' || c == '\t' || c == '(' || c == ')'
  }

  function WordLength(s: string): (n: nat)
    ensures n <= |s|
    ensures forall i | 0 <= i < n :: !IsBreak(s[i])
    ensures n < |s| ==> IsBreak(s[n])
  {
    if s == "" || IsBreak(s[0]) then 0 else 1 + WordLength(s[1..])
  }

  function OpOf(lower: string): Option<CompareOp> {
    if lower == "eq" then Some(Eq)
    else if lower == "ne" then Some(Ne)
    else if lower == "gt" then Some(Gt)
    else if lower == "ge" then Some(Ge)
    else if lower == "lt" then Some(Lt)
    else if lower == "le" then Some(Le)
    else None
  }

  function ClassifyWord(num: Numerals, word: string): Token {
    var lower := Lower(word);
    if lower == "and" then AndTok
    else if lower == "or" then OrTok
    else if lower == "true" || lower == "false" then BoolTok(lower == "true")
    else if OpOf(lower).Some? then OpTok(OpOf(lower).value)
    else if num(word).Some? then NumTok(word)
    else Ident(word)
  }

  /** A string literal's text and what follows its closing quote, or None when it is not closed. */
  function Unquote(s: string): (r: Option<(string, string)>)
    ensures r.Some? ==> |r.value.0| + |r.value.1| < |s|
  {
    if s == "" then None
    else if s[0] == '\'' then
      if |s| > 1 && s[1] == '\'' then Prefixed('\'', Unquote(s[2..])) else Some(("", s[1..]))
    else Prefixed(s[0], Unquote(s[1..]))
  }

  function Prefixed(c: char, r: Option<(string, string)>): Option<(string, string)> {
    if r.Some? then Some(([c] + r.value.0, r.value.1)) else None
  }

  function Cons(t: Token, ts: Option<seq<Token>>): Option<seq<Token>> {
    if ts.Some? then Some([t] + ts.value) else None
  }

  function Tokenize(num: Numerals, s: string): Option<seq<Token>>
    decreases |s|
  {
    if s == "" then Some([])
    else if s[0] == ' ' || s[0] == '\t' then Tokenize(num, s[1..])
    else if s[0] == '(' then Cons(LParen, Tokenize(num, s[1..]))
    else if s[0] == ')' then Cons(RParen, Tokenize(num, s[1..]))
    else if s[0] == '\'' then
      var r := Unquote(s[1..]);
      if r.None? then None else Cons(StrTok(r.value.0), Tokenize(num, r.value.1))
    else
      var n := WordLength(s);
      Cons(ClassifyWord(num, s[..n]), Tokenize(num, s[n..]))
  }

  // ---- Parsing ----

  datatype Parse = Ok(f: Filter, rest: seq<Token>) | Error

  function LiteralOf(num: Numerals, t: Token): Option<Literal> {
    match t
    case StrTok(s) => Some(LString(s))
    case NumTok(s) => if num(s).Some? then Some(LNumber(s)) else None
    case BoolTok(b) => Some(LBool(b))
    case _ => None
  }

  function ParseOr(num: Numerals, ts: seq<Token>, depth: nat): (r: Parse)
    ensures r.Ok? ==> |r.rest| < |ts|
    decreases |ts|, 3
  {
    var r := ParseAnd(num, ts, depth);
    if r.Error? then Error else OrTail(num, r.f, r.rest, depth)
  }

  function OrTail(num: Numerals, left: Filter, ts: seq<Token>, depth: nat): (r: Parse)
    ensures r.Ok? ==> |r.rest| <= |ts|
    decreases |ts|, 4
  {
    if ts != [] && ts[0].OrTok? then
      var r := ParseAnd(num, ts[1..], depth);
      if r.Error? then Error else OrTail(num, Or(left, r.f), r.rest, depth)
    else Ok(left, ts)
  }

  function ParseAnd(num: Numerals, ts: seq<Token>, depth: nat): (r: Parse)
    ensures r.Ok? ==> |r.rest| < |ts|
    decreases |ts|, 2
  {
    var r := ParsePrimary(num, ts, depth);
    if r.Error? then Error else AndTail(num, r.f, r.rest, depth)
  }

  function AndTail(num: Numerals, left: Filter, ts: seq<Token>, depth: nat): (r: Parse)
    ensures r.Ok? ==> |r.rest| <= |ts|
    decreases |ts|, 4
  {
    if ts != [] && ts[0].AndTok? then
      var r := ParsePrimary(num, ts[1..], depth);
      if r.Error? then Error else AndTail(num, And(left, r.f), r.rest, depth)
    else Ok(left, ts)
  }

  function ParsePrimary(num: Numerals, ts: seq<Token>, depth: nat): (r: Parse)
    ensures r.Ok? ==> |r.rest| < |ts|
    decreases |ts|, 1
  {
    if ts == [] then Error
    else if ts[0].LParen? then
      if depth + 1 > MAX_FILTER_DEPTH then Error
      else
        var r := ParseOr(num, ts[1..], depth + 1);
        if r.Error? || r.rest == [] || !r.rest[0].RParen? then Error else Ok(r.f, r.rest[1..])
    else ParseTest(num, ts)
  }

  function ParseTest(num: Numerals, ts: seq<Token>): (r: Parse)
    requires ts != []
    ensures r.Ok? ==> |r.rest| == |ts| - 3
  {
    if !ts[0].Ident? || |ts| < 3 || !ts[1].OpTok? || LiteralOf(num, ts[2]).None? then Error
    else Ok(Test(ts[0].text, ts[1].op, LiteralOf(num, ts[2]).value), ts[3..])
  }

  function ParseTokens(num: Numerals, ts: seq<Token>): Option<Filter> {
    var r := ParseOr(num, ts, 0);
    if r.Ok? && r.rest == [] then Some(r.f) else None
  }

  /** A compiled filter: `Everything` for a blank expression. */
  datatype Compiled = Everything | Only(f: Filter)

  function ParseFilter(num: Numerals, expr: string): Option<Compiled> {
    var text := TrimSpace(expr);
    if text == "" then Some(Everything)
    else
      var ts := Tokenize(num, text);
      if ts.None? then None
      else
        var f := ParseTokens(num, ts.value);
        if f.None? then None else Some(Only(f.value))
  }

  // ---- The grammar ----

  /** Derivations: or-expressions of and-expressions of primaries, each chain associating to the left. */
  datatype OrTree = OneAnd(a: AndTree) | MoreOr(o: OrTree, a: AndTree)
  datatype AndTree = OnePrim(p: Prim) | MoreAnd(a: AndTree, p: Prim)
  datatype Prim = Paren(o: OrTree) | Leaf(field: string, op: CompareOp, lit: Token)

  function YieldOr(o: OrTree): (r: seq<Token>)
    ensures r != [] && (r[0].LParen? || r[0].Ident?)
  {
    match o
    case OneAnd(a) => YieldAnd(a)
    case MoreOr(o', a) => YieldOr(o') + ([OrTok] + YieldAnd(a))
  }

  function YieldAnd(a: AndTree): (r: seq<Token>)
    ensures r != [] && (r[0].LParen? || r[0].Ident?)
  {
    match a
    case OnePrim(p) => YieldPrim(p)
    case MoreAnd(a', p) => YieldAnd(a') + ([AndTok] + YieldPrim(p))
  }

  function YieldPrim(p: Prim): (r: seq<Token>)
    ensures r != [] && (r[0].LParen? || r[0].Ident?)
  {
    match p
    case Paren(o) => [LParen] + (YieldOr(o) + [RParen])
    case Leaf(f, op, lit) => [Ident(f), OpTok(op), lit]
  }

  function Max(a: nat, b: nat): nat { if a >= b then a else b }

  function DepthOr(o: OrTree): nat {
    match o
    case OneAnd(a) => DepthAnd(a)
    case MoreOr(o', a) => Max(DepthOr(o'), DepthAnd(a))
  }

  function DepthAnd(a: AndTree): nat {
    match a
    case OnePrim(p) => DepthPrim(p)
    case MoreAnd(a', p) => Max(DepthAnd(a'), DepthPrim(p))
  }

  function DepthPrim(p: Prim): nat {
    match p
    case Paren(o) => 1 + DepthOr(o)
    case Leaf(_, _, _) => 0
  }

  /** Every right-hand side is a literal. */
  predicate LiteralsOr(num: Numerals, o: OrTree) {
    match o
    case OneAnd(a) => LiteralsAnd(num, a)
    case MoreOr(o', a) => LiteralsOr(num, o') && LiteralsAnd(num, a)
  }

  predicate LiteralsAnd(num: Numerals, a: AndTree) {
    match a
    case OnePrim(p) => LiteralsPrim(num, p)
    case MoreAnd(a', p) => LiteralsAnd(num, a') && LiteralsPrim(num, p)
  }

  predicate LiteralsPrim(num: Numerals, p: Prim) {
    match p
    case Paren(o) => LiteralsOr(num, o)
    case Leaf(_, _, lit) => LiteralOf(num, lit).Some?
  }

  function MeaningOr(num: Numerals, o: OrTree): Filter
    requires LiteralsOr(num, o)
  {
    match o
    case OneAnd(a) => MeaningAnd(num, a)
    case MoreOr(o', a) => Or(MeaningOr(num, o'), MeaningAnd(num, a))
  }

  function MeaningAnd(num: Numerals, a: AndTree): Filter
    requires LiteralsAnd(num, a)
  {
    match a
    case OnePrim(p) => MeaningPrim(num, p)
    case MoreAnd(a', p) => And(MeaningAnd(num, a'), MeaningPrim(num, p))
  }

  function MeaningPrim(num: Numerals, p: Prim): Filter
    requires LiteralsPrim(num, p)
  {
    match p
    case Paren(o) => MeaningOr(num, o)
    case Leaf(f, op, lit) => Test(f, op, LiteralOf(num, lit).value)
  }

  // ---- The parser accepts every derivation within the cap ----

  predicate Starts(ts: seq<Token>, t: Token) {
    ts != [] && ts[0] == t
  }

  lemma {:induction false} OrComplete(num: Numerals, o: OrTree, rest: seq<Token>, depth: nat)
    requires LiteralsOr(num, o) && depth + DepthOr(o) <= MAX_FILTER_DEPTH && !Starts(rest, AndTok)
    ensures ParseOr(num, YieldOr(o) + rest, depth) == OrTail(num, MeaningOr(num, o), rest, depth)
    decreases o
  {
    hide ParseAnd;
    match o
    case OneAnd(a) =>
      AndComplete(num, a, rest, depth);
      AndStops(num, MeaningAnd(num, a), rest, depth);
    case MoreOr(o', a) =>
      var more := [OrTok] + YieldAnd(a) + rest;
      assert YieldOr(o) + rest == YieldOr(o') + more;
      OrComplete(num, o', more, depth);
      assert more[1..] == YieldAnd(a) + rest;
      AndComplete(num, a, rest, depth);
      AndStops(num, MeaningAnd(num, a), rest, depth);
  }

  lemma AndStops(num: Numerals, f: Filter, rest: seq<Token>, depth: nat)
    requires !Starts(rest, AndTok)
    ensures AndTail(num, f, rest, depth) == Ok(f, rest)
  {
  }

  lemma {:induction false} AndComplete(num: Numerals, a: AndTree, rest: seq<Token>, depth: nat)
    requires LiteralsAnd(num, a) && depth + DepthAnd(a) <= MAX_FILTER_DEPTH
    ensures ParseAnd(num, YieldAnd(a) + rest, depth) == AndTail(num, MeaningAnd(num, a), rest, depth)
    decreases a
  {
    hide ParsePrimary;
    match a
    case OnePrim(p) => PrimComplete(num, p, rest, depth);
    case MoreAnd(a', p) =>
      var more := [AndTok] + YieldPrim(p) + rest;
      assert YieldAnd(a) + rest == YieldAnd(a') + more;
      AndComplete(num, a', more, depth);
      assert more[1..] == YieldPrim(p) + rest;
      PrimComplete(num, p, rest, depth);
  }

  lemma {:induction false} PrimComplete(num: Numerals, p: Prim, rest: seq<Token>, depth: nat)
    requires LiteralsPrim(num, p) && depth + DepthPrim(p) <= MAX_FILTER_DEPTH
    ensures ParsePrimary(num, YieldPrim(p) + rest, depth) == Ok(MeaningPrim(num, p), rest)
    decreases p
  {
    hide ParseOr;
    match p
    case Paren(o) =>
      var inner := YieldOr(o) + ([RParen] + rest);
      assert (YieldPrim(p) + rest)[1..] == inner;
      OrComplete(num, o, [RParen] + rest, depth + 1);
      assert ([RParen] + rest)[1..] == rest;
    case Leaf(_, _, _) =>
  }

  // ---- and nothing else ----

  lemma {:induction false} OrSound(num: Numerals, ts: seq<Token>, depth: nat) returns (o: OrTree)
    requires ParseOr(num, ts, depth).Ok? && depth <= MAX_FILTER_DEPTH
    ensures var r := ParseOr(num, ts, depth);
            && LiteralsOr(num, o) && MeaningOr(num, o) == r.f
            && ts == YieldOr(o) + r.rest && depth + DepthOr(o) <= MAX_FILTER_DEPTH
    decreases |ts|, 3
  {
    hide ParseAnd;
    var a := AndSound(num, ts, depth);
    o := OrTailSound(num, OneAnd(a), ParseAnd(num, ts, depth).rest, depth);
  }

  lemma {:induction false} OrTailSound(num: Numerals, left: OrTree, ts: seq<Token>, depth: nat) returns (o: OrTree)
    requires LiteralsOr(num, left) && depth + DepthOr(left) <= MAX_FILTER_DEPTH
    requires OrTail(num, MeaningOr(num, left), ts, depth).Ok?
    ensures var r := OrTail(num, MeaningOr(num, left), ts, depth);
            && LiteralsOr(num, o) && MeaningOr(num, o) == r.f
            && YieldOr(left) + ts == YieldOr(o) + r.rest && depth + DepthOr(o) <= MAX_FILTER_DEPTH
    decreases |ts|, 4
  {
    hide ParseAnd;
    if Starts(ts, OrTok) {
      var a := AndSound(num, ts[1..], depth);
      var rest := ParseAnd(num, ts[1..], depth).rest;
      o := OrTailSound(num, MoreOr(left, a), rest, depth);
      assert ts == [OrTok] + ts[1..];
      assert YieldOr(left) + ts == YieldOr(MoreOr(left, a)) + rest;
    } else {
      o := left;
    }
  }

  lemma {:induction false} AndSound(num: Numerals, ts: seq<Token>, depth: nat) returns (a: AndTree)
    requires ParseAnd(num, ts, depth).Ok? && depth <= MAX_FILTER_DEPTH
    ensures var r := ParseAnd(num, ts, depth);
            && LiteralsAnd(num, a) && MeaningAnd(num, a) == r.f
            && ts == YieldAnd(a) + r.rest && depth + DepthAnd(a) <= MAX_FILTER_DEPTH
    decreases |ts|, 2
  {
    hide ParsePrimary;
    var p := PrimSound(num, ts, depth);
    a := AndTailSound(num, OnePrim(p), ParsePrimary(num, ts, depth).rest, depth);
  }

  lemma {:induction false} AndTailSound(num: Numerals, left: AndTree, ts: seq<Token>, depth: nat) returns (a: AndTree)
    requires LiteralsAnd(num, left) && depth + DepthAnd(left) <= MAX_FILTER_DEPTH
    requires AndTail(num, MeaningAnd(num, left), ts, depth).Ok?
    ensures var r := AndTail(num, MeaningAnd(num, left), ts, depth);
            && LiteralsAnd(num, a) && MeaningAnd(num, a) == r.f
            && YieldAnd(left) + ts == YieldAnd(a) + r.rest && depth + DepthAnd(a) <= MAX_FILTER_DEPTH
    decreases |ts|, 4
  {
    hide ParsePrimary;
    if Starts(ts, AndTok) {
      var p := PrimSound(num, ts[1..], depth);
      var rest := ParsePrimary(num, ts[1..], depth).rest;
      a := AndTailSound(num, MoreAnd(left, p), rest, depth);
      assert ts == [AndTok] + ts[1..];
      assert YieldAnd(left) + ts == YieldAnd(MoreAnd(left, p)) + rest;
    } else {
      a := left;
    }
  }

  lemma {:induction false} PrimSound(num: Numerals, ts: seq<Token>, depth: nat) returns (p: Prim)
    requires ParsePrimary(num, ts, depth).Ok? && depth <= MAX_FILTER_DEPTH
    ensures var r := ParsePrimary(num, ts, depth);
            && LiteralsPrim(num, p) && MeaningPrim(num, p) == r.f
            && ts == YieldPrim(p) + r.rest && depth + DepthPrim(p) <= MAX_FILTER_DEPTH
    decreases |ts|, 1
  {
    hide ParseOr;
    if ts[0].LParen? {
      var o := OrSound(num, ts[1..], depth + 1);
      p := Paren(o);
      var rest := ParseOr(num, ts[1..], depth + 1).rest;
      assert ts == [LParen] + ts[1..] && rest == [RParen] + rest[1..];
      assert ts == YieldPrim(p) + rest[1..];
    } else {
      p := Leaf(ts[0].text, ts[1].op, ts[2]);
      assert ts == [ts[0], ts[1], ts[2]] + ts[3..];
    }
  }

  /** A derivation of all of ts within the nesting cap. */
  ghost predicate Derives(num: Numerals, o: OrTree, ts: seq<Token>) {
    LiteralsOr(num, o) && YieldOr(o) == ts && DepthOr(o) <= MAX_FILTER_DEPTH
  }

  /**
   The parser accepts exactly the token sequences the grammar derives within the nesting cap, and means
   what they mean.
   */
  lemma ParserIsTheGrammar(num: Numerals, ts: seq<Token>)
    ensures ParseTokens(num, ts).Some? <==> exists o :: Derives(num, o, ts)
    ensures forall o | Derives(num, o, ts) :: ParseTokens(num, ts) == Some(MeaningOr(num, o))
  {
    hide ParseOr;
    forall o | Derives(num, o, ts) ensures ParseTokens(num, ts) == Some(MeaningOr(num, o)) {
      assert YieldOr(o) + [] == ts;
      OrComplete(num, o, [], 0);
      OrStops(num, MeaningOr(num, o));
    }
    if ParseTokens(num, ts).Some? {
      var o := OrSound(num, ts, 0);
      assert YieldOr(o) + [] == YieldOr(o);
      assert Derives(num, o, ts);
    }
  }

  lemma OrStops(num: Numerals, f: Filter)
    ensures OrTail(num, f, [], 0) == Ok(f, [])
  {
  }
}
