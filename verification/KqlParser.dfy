/** The parser of where clauses as it runs: loops over words, characters and parts. */
module KqlParser {
  import opened Kql
  import opened KqlText
  import opened KqlWords
  import opened Strings
  import opened Wrappers

  method SplitKeyword(s: string, keyword: string) returns (parts: seq<string>)
    ensures parts == KqlText.SplitKeyword(s, keyword)
  {
    hide Fields, Spaced, QuoteAfter, TrimSpace;
    var tokens := Fields(s);
    FieldsAreWords(s);
    SpacedNothing();
    parts := [];
    var buf, quote: Option<char> := "", None;
    ghost var part: seq<string> := [];
    assert tokens[0..] == tokens;
    for k := 0 to |tokens|
      invariant AreWords(part) && buf == Spaced(part)
      invariant parts + SplitWords(tokens[k..], keyword, quote, part) == SplitWords(tokens, keyword, None, [])
    {
      var tok := tokens[k];
      assert tokens[k..][0] == tok && tokens[k..][1..] == tokens[k + 1..];
      SpacedTrimmed(part);
      if quote.None? && Lower(tok) == keyword {
        parts := parts + [TrimSpace(buf)];
        buf, part := "", [];
        continue;
      }
      quote := ScanQuotes(quote, tok);
      SpacedNext(part, tok);
      if |buf| > 0 {
        buf := buf + " ";
      }
      buf := buf + tok;
      part := part + [tok];
    }
    SpacedTrimmed(part);
    parts := parts + [TrimSpace(buf)];
  }

  /** The quote that is open after a word. */
  method ScanQuotes(quote: Option<char>, tok: string) returns (open: Option<char>)
    ensures open == QuoteAfter(quote, tok)
  {
    open := quote;
    assert tok[0..] == tok;
    for i := 0 to |tok|
      invariant QuoteAfter(open, tok[i..]) == QuoteAfter(quote, tok)
    {
      assert tok[i..][0] == tok[i] && tok[i..][1..] == tok[i + 1..];
      var ch := tok[i];
      if open.None? && (ch == '\'' || ch == '"') {
        open := Some(ch);
      } else if open.Some? && ch == open.value {
        open := None;
      }
    }
  }

  lemma SpacedTrimmed(part: seq<string>)
    requires AreWords(part)
    ensures TrimSpace(Spaced(part)) == Spaced(part) && (Spaced(part) == "" <==> part == [])
  {
    if part != [] {
      SpacedTight(part);
      TrimTight(Spaced(part));
    }
  }

  lemma SpacedNext(part: seq<string>, tok: string)
    requires AreWords(part)
    ensures Spaced(part + [tok]) == (if Spaced(part) == "" then "" else Spaced(part) + " ") + tok
  {
    SpacedTrimmed(part);
    if part != [] {
      SpacedJoin(part, [tok]);
      assert Spaced(part) + (" " + tok) == Spaced(part) + " " + tok;
    }
  }

  method IndexOperator(s: string, op: string) returns (idx: int)
    requires op != ""
    ensures idx == KqlText.IndexOperator(s, op, None, 0)
  {
    var quote: Option<char> := None;
    var i := 0;
    while i + |op| <= |s|
      invariant i <= |s| && KqlText.IndexOperator(s, op, quote, i) == KqlText.IndexOperator(s, op, None, 0)
    {
      var ch := s[i];
      if quote.Some? {
        if ch == quote.value {
          quote := None;
        }
      } else if ch == '\'' || ch == '"' {
        quote := Some(ch);
      } else if op <= s[i..] {
        return i;
      }
      i := i + 1;
    }
    return -1;
  }

  /** The operators are tried longest first, so that "<=" wins over "<". */
  method ParseComparison(num: Numerals, text: string) returns (c: Option<Comparison>)
    ensures c == KqlText.ParseComparison(num, text)
  {
    hide KqlText.IndexOperator, TrimSpace, ParseLiteral;
    var s := TrimSpace(text);
    for k := 0 to |OPS|
      invariant FirstOperator(num, s, k) == FirstOperator(num, s, 0)
    {
      var op := OpText(OPS[k]);
      var idx := IndexOperator(s, op);
      if idx < 0 {
        continue;
      }
      var col, rhs := TrimSpace(s[..idx]), TrimSpace(s[idx + |op|..]);
      if col == "" || rhs == "" {
        return None;
      }
      var lit := ParseLiteral(num, rhs);
      return if lit.Some? then Some(Comparison(col, OPS[k], lit.value)) else None;
    }
    return None;
  }

  function WithComparisons(cs: seq<Comparison>, rest: Option<seq<Comparison>>): Option<seq<Comparison>> {
    if rest.Some? then Some(cs + rest.value) else None
  }

  function WithGroups(gs: Predicate, rest: Option<Predicate>): Option<Predicate> {
    if rest.Some? then Some(gs + rest.value) else None
  }

  method ParseConjunction(num: Numerals, text: string) returns (group: Option<seq<Comparison>>)
    ensures group == ParseGroup(num, KqlText.SplitKeyword(text, "and"))
  {
    hide KqlText.ParseComparison, KqlText.SplitKeyword;
    var parts := SplitKeyword(text, "and");
    var cs: seq<Comparison> := [];
    assert parts[0..] == parts;
    ghost var goal := ParseGroup(num, parts);
    assert goal.Some? ==> [] + goal.value == goal.value;
    for j := 0 to |parts|
      invariant WithComparisons(cs, ParseGroup(num, parts[j..])) == goal
    {
      assert parts[j..][0] == parts[j] && parts[j..][1..] == parts[j + 1..];
      var c := ParseComparison(num, parts[j]);
      if c.None? {
        return None;
      }
      ghost var rest := ParseGroup(num, parts[j + 1..]);
      assert rest.Some? ==> cs + ([c.value] + rest.value) == cs + [c.value] + rest.value;
      cs := cs + [c.value];
    }
    assert cs + [] == cs;
    return Some(cs);
  }

  method ParsePredicate(num: Numerals, text: string) returns (p: Option<Predicate>)
    ensures p == KqlText.ParsePredicate(num, text)
  {
    hide ParseGroup, KqlText.SplitKeyword, TrimSpace;
    var expr := TrimSpace(text);
    if expr == "" {
      return None;
    }
    var parts := SplitKeyword(expr, "or");
    var groups: Predicate := [];
    assert parts[0..] == parts;
    ghost var goal := ParseGroups(num, parts);
    assert goal.Some? ==> [] + goal.value == goal.value;
    for i := 0 to |parts|
      invariant WithGroups(groups, ParseGroups(num, parts[i..])) == goal
    {
      assert parts[i..][0] == parts[i] && parts[i..][1..] == parts[i + 1..];
      var g := ParseConjunction(num, parts[i]);
      if g.None? {
        return None;
      }
      ghost var rest := ParseGroups(num, parts[i + 1..]);
      assert rest.Some? ==> groups + ([g.value] + rest.value) == groups + [g.value] + rest.value;
      groups := groups + [g.value];
    }
    assert groups + [] == groups;
    return Some(groups);
  }
}
