/**
 The text of a where clause: splitting at keywords, finding the operator, reading the literal; and which
 clauses are read back as they were written.
 */
module KqlText {
  import opened Kql
  import opened Operators
  import opened Strings
  import opened Wrappers

  // ---- Words ----

  /** The length of the leading run of characters that are white space, or that are not. */
  function RunLength(s: string, space: bool): (n: nat)
    ensures n <= |s|
    ensures forall i | 0 <= i < n :: IsSpace(s[i]) == space
    ensures n < |s| ==> IsSpace(s[n]) != space
  {
    if s == "" || IsSpace(s[0]) != space then 0 else 1 + RunLength(s[1..], space)
  }

  /** The words of a text between its white space. */
  function Fields(s: string): seq<string>
    decreases |s|
  {
    if s == "" then []
    else if IsSpace(s[0]) then Fields(s[1..])
    else
      var n := RunLength(s, false);
      [s[..n]] + Fields(s[n..])
  }

  /** The words with one blank between them. */
  function Spaced(words: seq<string>): string {
    if words == [] then "" else if |words| == 1 then words[0] else words[0] + (" " + Spaced(words[1..]))
  }

  // ---- Splitting at keywords ----

  predicate IsQuote(c: char) {
    c == '\'' || c == '"'
  }

  /** Inside which quotes a text ends that begins inside `quote`, None being outside any. */
  function QuoteAfter(quote: Option<char>, s: string): Option<char>
    decreases |s|
  {
    if s == "" then quote
    else if quote.None? then QuoteAfter(if IsQuote(s[0]) then Some(s[0]) else None, s[1..])
    else QuoteAfter(if s[0] == quote.value then None else quote, s[1..])
  }

  /** `part` are the words since the last keyword. */
  function SplitWords(words: seq<string>, keyword: string, quote: Option<char>, part: seq<string>): seq<string>
    decreases |words|
  {
    if words == [] then [Spaced(part)]
    else if quote.None? && Lower(words[0]) == keyword then
      [Spaced(part)] + SplitWords(words[1..], keyword, None, [])
    else SplitWords(words[1..], keyword, QuoteAfter(quote, words[0]), part + [words[0]])
  }

  /** The parts between the keywords that stand outside quotes. */
  function SplitKeyword(s: string, keyword: string): seq<string> {
    SplitWords(Fields(s), keyword, None, [])
  }

  // ---- One comparison ----

  /** Where op first occurs outside quotes, or -1. */
  function IndexOperator(s: string, op: string, quote: Option<char>, i: nat): (r: int)
    requires i <= |s|
    ensures r == -1 || (i <= r && OccursAt(s, op, r))
    decreases |s| - i
  {
    if i + |op| > |s| || i == |s| then -1
    else if quote.Some? then IndexOperator(s, op, if s[i] == quote.value then None else quote, i + 1)
    else if IsQuote(s[i]) then IndexOperator(s, op, Some(s[i]), i + 1)
    else if OccursAt(s, op, i) then i
    else IndexOperator(s, op, None, i + 1)
  }

  function OpText(op: CompareOp): string {
    match op
    case Eq => "=="
    case Ne => "!="
    case Le => "<="
    case Ge => ">="
    case Lt => "<"
    case Gt => ">"
  }

  /** Tried in this order. */
  const OPS := [CompareOp.Eq, CompareOp.Ne, CompareOp.Le, CompareOp.Ge, CompareOp.Lt, CompareOp.Gt]

  type Numerals = string -> Option<real>

  function ParseLiteral(num: Numerals, s: string): Option<Literal> {
    if |s| >= 2 && IsQuote(s[0]) && s[|s| - 1] == s[0] then Some(LText(s[1..|s| - 1]))
    else if Lower(s) == "true" then Some(LBool(true))
    else if Lower(s) == "false" then Some(LBool(false))
    else if num(s).Some? then Some(LNumber(num(s).value))
    else None
  }

  function ComparisonAt(num: Numerals, s: string, op: CompareOp, at: nat): Option<Comparison>
    requires at + |OpText(op)| <= |s|
  {
    var col, rhs := TrimSpace(s[..at]), TrimSpace(s[at + |OpText(op)|..]);
    if col == "" || rhs == "" then None
    else
      match ParseLiteral(num, rhs)
      case Some(lit) => Some(Comparison(col, op, lit))
      case None => None
  }

  /** The operators from the k-th on. */
  function FirstOperator(num: Numerals, s: string, k: nat): Option<Comparison>
    requires k <= |OPS|
    decreases |OPS| - k
  {
    if k == |OPS| then None
    else
      var at := IndexOperator(s, OpText(OPS[k]), None, 0);
      if at < 0 then FirstOperator(num, s, k + 1) else ComparisonAt(num, s, OPS[k], at)
  }

  function ParseComparison(num: Numerals, s: string): Option<Comparison> {
    FirstOperator(num, TrimSpace(s), 0)
  }

  // ---- The clause ----

  function ParseGroup(num: Numerals, parts: seq<string>): Option<seq<Comparison>> {
    if parts == [] then Some([])
    else
      match ParseComparison(num, parts[0])
      case None => None
      case Some(c) =>
        match ParseGroup(num, parts[1..])
        case None => None
        case Some(cs) => Some([c] + cs)
  }

  function ParseGroups(num: Numerals, parts: seq<string>): Option<Predicate> {
    if parts == [] then Some([])
    else
      match ParseGroup(num, SplitKeyword(parts[0], "and"))
      case None => None
      case Some(g) =>
        match ParseGroups(num, parts[1..])
        case None => None
        case Some(gs) => Some([g] + gs)
  }

  function ParsePredicate(num: Numerals, expr: string): Option<Predicate> {
    var s := TrimSpace(expr);
    if s == "" then None else ParseGroups(num, SplitKeyword(s, "or"))
  }

  // ---- The pipeline ----

  /** The stages of a query, cut at every bar, inside quotes too. */
  function SplitPipeline(query: string): (stages: seq<string>)
    ensures stages != []
    decreases |query|
  {
    var i := Index(query, "|");
    if i < 0 then [TrimSpace(query)] else [TrimSpace(query[..i])] + SplitPipeline(query[i + 1..])
  }
}
