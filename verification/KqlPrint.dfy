/**
 Writing a where clause down, in whichever quotes, and which written clauses can be read back.
 */
module KqlPrint {
  import opened Kql
  import opened KqlText
  import opened KqlWords
  import opened Operators
  import opened Strings
  import opened Wrappers

  // ---- The printer ----

  type Show = real -> string

  /** A comparison and the quote put around its literal if that is a string. */
  datatype Written = Written(c: Comparison, quote: char)

  type Clause = seq<seq<Written>>

  function Quoted(q: char, s: string): string {
    [q] + s + [q]
  }

  function LiteralText(show: Show, w: Written): string {
    match w.c.lit
    case LText(s) => Quoted(w.quote, s)
    case LNumber(n) => show(n)
    case LBool(b) => if b then "true" else "false"
  }

  /** A column, a blank, an operator, a blank and a literal. */
  function Parts(col: string, op: CompareOp, t: string): string {
    col + (" " + (OpText(op) + (" " + t)))
  }

  function ComparisonText(show: Show, w: Written): string {
    Parts(w.c.column, w.c.op, LiteralText(show, w))
  }

  predicate NonEmpty(p: Clause) {
    p != [] && forall i | 0 <= i < |p| :: p[i] != []
  }

  /** The clause without its first comparison. */
  function Rest(p: Clause): (r: Clause)
    requires NonEmpty(p)
    ensures r != [] ==> NonEmpty(r)
  {
    if |p[0]| > 1 then [p[0][1..]] + p[1..] else p[1..]
  }

  /** The keyword behind the first comparison. */
  function Link(p: Clause): string
    requires NonEmpty(p)
  {
    if |p[0]| > 1 then "and" else "or"
  }

  function ClauseText(show: Show, p: Clause): string
    requires NonEmpty(p)
    decreases |p|, |p[0]|
  {
    if Rest(p) == [] then ComparisonText(show, p[0][0])
    else ComparisonText(show, p[0][0]) + (" " + (Link(p) + (" " + ClauseText(show, Rest(p)))))
  }

  function GroupMeant(g: seq<Written>): (r: seq<Comparison>)
    ensures |r| == |g| && forall i | 0 <= i < |g| :: r[i] == g[i].c
  {
    seq(|g|, i requires 0 <= i < |g| => g[i].c)
  }

  function Meant(p: Clause): (r: Predicate)
    ensures |r| == |p| && forall i | 0 <= i < |p| :: r[i] == GroupMeant(p[i])
  {
    seq(|p|, i requires 0 <= i < |p| => GroupMeant(p[i]))
  }

  predicate IsOpChar(c: char) {
    c == '=' || c == '!' || c == '<' || c == '>'
  }

  predicate IsPlain(w: string) {
    w != "" && forall i | 0 <= i < |w| :: !IsSpace(w[i]) && !IsQuote(w[i]) && !IsOpChar(w[i])
  }

  /** A word that is neither split nor taken for a keyword. */
  predicate IsName(w: string) {
    IsPlain(w) && Lower(w) != "and" && Lower(w) != "or"
  }

  /** The quotes are quotes, and the numbers are written as words that read as those numbers. */
  predicate Writable(num: Numerals, show: Show, w: Written) {
    match w.c.lit
    case LText(s) => IsQuote(w.quote)
    case LNumber(n) =>
      IsName(show(n)) && Lower(show(n)) != "true" && Lower(show(n)) != "false" && num(show(n)) == Some(n)
    case LBool(_) => true
  }

  predicate WritableClause(num: Numerals, show: Show, p: Clause) {
    NonEmpty(p) && forall i, j | 0 <= i < |p| && 0 <= j < |p[i]| :: Writable(num, show, p[i][j])
  }

  // ---- What is read back ----

  /** No keyword of the text stands outside its quotes. */
  predicate Uncut(s: string) {
    FirstCut(Fields(s), Either, None) == |Fields(s)|
  }

  /** Every quote that the text opens it closes. */
  predicate Closes(s: string) {
    QuoteAfter(None, s) == None
  }

  /** Where an operator stands in the order in which they are looked for. */
  function Rank(op: CompareOp): (m: nat)
    ensures m < |OPS| && OPS[m] == op
  {
    match op
    case Eq => 0
    case Ne => 1
    case Le => 2
    case Ge => 3
    case Lt => 4
    case Gt => 5
  }

  /** None of the first n operators stands outside quotes. */
  predicate NoOperator(s: string, n: nat)
    requires n <= |OPS|
  {
    forall k | 0 <= k < n :: IndexOperator(s, OpText(OPS[k]), None, 0) == -1
  }

  /**
   The column is not empty, has single blanks for its white space and none at its ends, no keyword and
   no open quote, and nothing that is found as an operator before the comparison's own; the literal
   has single blanks, no keyword outside quotes and no operator that is looked for earlier.
   */
  predicate Stands(show: Show, w: Written) {
    var (col, t, m) := (w.c.column, LiteralText(show, w), Rank(w.c.op));
    && IsTight(col) && SingleSpaced(col) && Uncut(col) && Closes(col) && NoOperator(col, m + 1)
    && SingleSpaced(t) && Uncut(t) && NoOperator(t, m)
  }

  /** Each comparison does, and each literal but the last of the clause closes its quotes. */
  predicate ReadsBack(show: Show, p: Clause)
    requires NonEmpty(p)
    decreases |p|, |p[0]|
  {
    && Stands(show, p[0][0])
    && (Rest(p) != [] ==> Closes(LiteralText(show, p[0][0])) && ReadsBack(show, Rest(p)))
  }

  // ---- The words of a clause ----

  function ComparisonWords(show: Show, w: Written): (r: seq<string>)
    ensures r != []
  {
    Fields(w.c.column) + ([OpText(w.c.op)] + Fields(LiteralText(show, w)))
  }

  function ClauseWords(show: Show, p: Clause): seq<string>
    requires NonEmpty(p)
    decreases |p|, |p[0]|
  {
    ComparisonWords(show, p[0][0]) + if Rest(p) == [] then [] else [Link(p)] + ClauseWords(show, Rest(p))
  }

  lemma FieldsBetween(a: string, w: string, b: string)
    requires IsWord(w)
    ensures Fields(a + (" " + (w + (" " + b)))) == Fields(a) + ([w] + Fields(b))
  {
    FieldsJoin(a, w + (" " + b));
    FieldsJoin(w, b);
    FieldsOfWord(w);
  }

  lemma {:induction false} ClauseFields(show: Show, p: Clause)
    requires NonEmpty(p)
    ensures Fields(ClauseText(show, p)) == ClauseWords(show, p)
    decreases |p|, |p[0]|
  {
    hide Fields, Rest;
    var w := p[0][0];
    FieldsBetween(w.c.column, OpText(w.c.op), LiteralText(show, w));
    if Rest(p) == [] {
      assert ComparisonWords(show, w) + [] == ComparisonWords(show, w);
    } else {
      FieldsBetween(ComparisonText(show, w), Link(p), ClauseText(show, Rest(p)));
      RestSmaller(p);
      ClauseFields(show, Rest(p));
    }
  }

  lemma RestSmaller(p: Clause)
    requires NonEmpty(p) && Rest(p) != []
    ensures |Rest(p)| < |p| || (|Rest(p)| == |p| && |Rest(p)[0]| < |p[0]|)
  {
  }
}
