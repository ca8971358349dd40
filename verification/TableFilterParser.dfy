/**
 The $filter tokenizer and parser as they run: an index over the text, a cursor over the tokens.
 */
module TableFilterParser {
  import opened Strings
  import opened TableFilter
  import opened TableFilterPrint
  import opened Wrappers

  /** The string literal opened at i, read to its closing quote: `end` is where that quote is, or |expr|. */
  method ReadQuoted(expr: string, i: nat) returns (text: string, end: nat)
    requires i < |expr|
    ensures i < end <= |expr|
    ensures Unquote(expr[i + 1..]) == if end < |expr| then Some((text, expr[end + 1..])) else None
  {
    text, end := "", i + 1;
    JoinedNothing(Unquote(expr[i + 1..]));
    while end < |expr|
      invariant i < end <= |expr|
      invariant Unquote(expr[i + 1..]) == Joined(text, Unquote(expr[end..]))
    {
      UnquoteStep(expr, end);
      if expr[end] == '\'' {
        if end + 1 < |expr| && expr[end + 1] == '\'' {
          JoinedTwice(text, '\'', Unquote(expr[end + 2..]));
          text, end := text + "'", end + 2;
          continue;
        }
        assert text + "" == text;
        break;
      }
      JoinedTwice(text, expr[end], Unquote(expr[end + 1..]));
      text, end := text + [expr[end]], end + 1;
    }
  }

  function Joined(text: string, r: Option<(string, string)>): Option<(string, string)> {
    if r.Some? then Some((text + r.value.0, r.value.1)) else None
  }

  lemma JoinedTwice(text: string, c: char, r: Option<(string, string)>)
    ensures Joined(text, Prefixed(c, r)) == Joined(text + [c], r)
  {
    if r.Some? {
      assert text + ([c] + r.value.0) == text + [c] + r.value.0;
    }
  }

  lemma JoinedNothing(r: Option<(string, string)>)
    ensures Joined("", r) == r
  {
    if r.Some? {
      assert "" + r.value.0 == r.value.0;
    }
  }

  lemma UnquoteStep(s: string, i: nat)
    requires i <= |s|
    ensures i == |s| ==> Unquote(s[i..]).None?
    ensures i < |s| && s[i] != '\'' ==> Unquote(s[i..]) == Prefixed(s[i], Unquote(s[i + 1..]))
    ensures i + 1 < |s| && s[i] == '\'' == s[i + 1] ==> Unquote(s[i..]) == Prefixed('\'', Unquote(s[i + 2..]))
    ensures i < |s| && s[i] == '\'' && (i + 1 == |s| || s[i + 1] != '\'') ==> Unquote(s[i..]) == Some(("", s[i + 1..]))
  {
    if i < |s| {
      assert s[i..][1..] == s[i + 1..];
      if i + 1 < |s| {
        assert s[i..][2..] == s[i + 2..];
      }
    }
  }

  method ReadWord(expr: string, i: nat) returns (end: nat)
    requires i < |expr| && !IsBreak(expr[i])
    ensures i < end <= |expr| && WordLength(expr[i..]) == end - i
  {
    end := i;
    while end < |expr| && expr[end] != ' ' && expr[end] != '\t' && expr[end] != '(' && expr[end] != ')'
      invariant i <= end <= |expr|
      invariant forall k | i <= k < end :: !IsBreak(expr[k])
    {
      end := end + 1;
    }
    assert expr[i..] == expr[i..end] + expr[end..];
    WordLengthIs(expr[i..end], expr[end..]);
  }

  lemma TokenizeStep(num: Numerals, s: string, i: nat)
    requires i < |s|
    ensures s[i] == ' ' || s[i] == '\t' ==> Tokenize(num, s[i..]) == Tokenize(num, s[i + 1..])
    ensures s[i] == '(' ==> Tokenize(num, s[i..]) == Cons(LParen, Tokenize(num, s[i + 1..]))
    ensures s[i] == ')' ==> Tokenize(num, s[i..]) == Cons(RParen, Tokenize(num, s[i + 1..]))
    ensures s[i] == '\'' ==>
              Tokenize(num, s[i..]) ==
              var r := Unquote(s[i + 1..]);
              if r.None? then None else Cons(StrTok(r.value.0), Tokenize(num, r.value.1))
    ensures !IsBreak(s[i]) && s[i] != '\'' ==>
              var n := WordLength(s[i..]);
              Tokenize(num, s[i..]) == Cons(ClassifyWord(num, s[i..i + n]), Tokenize(num, s[i + n..]))
  {
    hide Unquote, ClassifyWord;
    assert s[i..][1..] == s[i + 1..];
    var n := WordLength(s[i..]);
    assert s[i..][..n] == s[i..i + n] && s[i..][n..] == s[i + n..];
  }

  lemma PlusCons(toks: seq<Token>, t: Token, more: Option<seq<Token>>)
    ensures Plus(toks, Cons(t, more)) == Plus(toks + [t], more)
  {
    PlusPlus(toks, [t], more);
    assert Cons(t, more) == Plus([t], more);
  }

  method TokenizeFilter(num: Numerals, expr: string) returns (r: Option<seq<Token>>)
    ensures r == Tokenize(num, expr)
  {
    hide Tokenize, Unquote, WordLength, ClassifyWord;
    var toks: seq<Token> := [];
    var i := 0;
    assert expr[0..] == expr;
    PlusNothing(Tokenize(num, expr));
    while i < |expr|
      invariant i <= |expr|
      invariant Tokenize(num, expr) == Plus(toks, Tokenize(num, expr[i..]))
    {
      var c := expr[i];
      TokenizeStep(num, expr, i);
      if c == ' ' || c == '\t' {
        i := i + 1;
      } else if c == '(' {
        PlusCons(toks, LParen, Tokenize(num, expr[i + 1..]));
        toks, i := toks + [LParen], i + 1;
      } else if c == ')' {
        PlusCons(toks, RParen, Tokenize(num, expr[i + 1..]));
        toks, i := toks + [RParen], i + 1;
      } else if c == '\'' {
        var text, end := ReadQuoted(expr, i);
        if end >= |expr| {
          return None;
        }
        PlusCons(toks, StrTok(text), Tokenize(num, expr[end + 1..]));
        toks, i := toks + [StrTok(text)], end + 1;
      } else {
        var end := ReadWord(expr, i);
        PlusCons(toks, ClassifyWord(num, expr[i..end]), Tokenize(num, expr[end..]));
        toks, i := toks + [ClassifyWord(num, expr[i..end])], end;
      }
    }
    TokenizeEnd(num);
    assert expr[i..] == "" && toks + [] == toks;
    return Some(toks);
  }

  lemma PlusNothing(more: Option<seq<Token>>)
    ensures Plus([], more) == more
  {
    if more.Some? {
      assert [] + more.value == more.value;
    }
  }

  lemma TokenizeEnd(num: Numerals)
    ensures Tokenize(num, "") == Some([])
  {
  }

  /** The parser's cursor; a parsed filter stands for the closure the program builds. */
  class FilterParser {
    const num: Numerals
    const tokens: seq<Token>
    var pos: nat
    var depth: nat

    constructor (num: Numerals, tokens: seq<Token>)
      ensures this.num == num && this.tokens == tokens && pos == 0 && depth == 0
    {
      this.num, this.tokens, pos, depth := num, tokens, 0, 0;
    }

    predicate InRange()
      reads this
    {
      pos <= |tokens| && depth <= MAX_FILTER_DEPTH
    }

    /** A method that started at `from`, `level` did what the specification p says. */
    predicate Did(p: Parse, level: nat, r: Option<Filter>)
      reads this
    {
      && (r.Some? <==> p.Ok?)
      && (r.Some? ==> InRange() && depth == level && tokens[pos..] == p.rest && r.value == p.f)
    }

    method Next() returns (t: Option<Token>)
      requires InRange()
      modifies `pos
      ensures t.None? <==> old(pos) == |tokens|
      ensures t.None? ==> pos == old(pos)
      ensures t.Some? ==> t.value == tokens[old(pos)] && pos == old(pos) + 1 && tokens[pos..] == tokens[old(pos)..][1..]
    {
      if pos >= |tokens| {
        return None;
      }
      t := Some(tokens[pos]);
      pos := pos + 1;
    }

    method ParseOr() returns (r: Option<Filter>)
      requires InRange()
      modifies `pos, `depth
      ensures Did(TableFilter.ParseOr(num, old(tokens[pos..]), old(depth)), old(depth), r)
      decreases |tokens| - pos, 3
    {
      hide TableFilter.ParseAnd;
      ghost var level := depth;
      ghost var goal := TableFilter.ParseOr(num, tokens[pos..], depth);
      ghost var first := TableFilter.ParseAnd(num, tokens[pos..], depth);
      var left := ParseAnd();
      if left.None? {
        return None;
      }
      while pos < |tokens| && tokens[pos].OrTok?
        invariant InRange() && old(pos) < pos && depth == level && left.Some?
        invariant goal == OrTail(num, left.value, tokens[pos..], level)
        decreases |tokens| - pos
      {
        ghost var ts := tokens[pos..];
        pos := pos + 1;
        assert tokens[pos..] == ts[1..];
        var right := ParseAnd();
        if right.None? {
          return None;
        }
        left := Some(Or(left.value, right.value));
      }
      return left;
    }

    method ParseAnd() returns (r: Option<Filter>)
      requires InRange()
      modifies `pos, `depth
      ensures Did(TableFilter.ParseAnd(num, old(tokens[pos..]), old(depth)), old(depth), r)
      ensures r.Some? ==> pos > old(pos)
      decreases |tokens| - pos, 2
    {
      hide TableFilter.ParsePrimary;
      ghost var level := depth;
      ghost var goal := TableFilter.ParseAnd(num, tokens[pos..], depth);
      var left := ParsePrimary();
      if left.None? {
        return None;
      }
      while pos < |tokens| && tokens[pos].AndTok?
        invariant InRange() && old(pos) < pos && depth == level && left.Some?
        invariant goal == AndTail(num, left.value, tokens[pos..], level)
        decreases |tokens| - pos
      {
        ghost var ts := tokens[pos..];
        pos := pos + 1;
        assert tokens[pos..] == ts[1..];
        var right := ParsePrimary();
        if right.None? {
          return None;
        }
        left := Some(And(left.value, right.value));
      }
      return left;
    }

    method ParsePrimary() returns (r: Option<Filter>)
      requires InRange()
      modifies `pos, `depth
      ensures Did(TableFilter.ParsePrimary(num, old(tokens[pos..]), old(depth)), old(depth), r)
      ensures r.Some? ==> pos > old(pos)
      decreases |tokens| - pos, 1
    {
      hide TableFilter.ParseOr;
      ghost var ts := tokens[pos..];
      var t := Next();
      if t.None? {
        return None;
      }
      if t.value.LParen? {
        depth := depth + 1;
        if depth > MAX_FILTER_DEPTH {
          return None;
        }
        r := ParseOr();
        if r.None? {
          return None;
        }
        depth := depth - 1;
        var closing := Next();
        if closing.None? || !closing.value.RParen? {
          return None;
        }
        return r;
      }
      if !t.value.Ident? {
        return None;
      }
      var opTok := Next();
      if opTok.None? || !opTok.value.OpTok? {
        return None;
      }
      var valTok := Next();
      if valTok.None? {
        return None;
      }
      assert ts[..3] == [t.value, opTok.value, valTok.value] && tokens[pos..] == ts[3..];
      var literal := LiteralOf(num, valTok.value);
      return if literal.None? then None else Some(Test(t.value.text, opTok.value.op, literal.value));
    }
  }

  method ParseFilter(num: Numerals, expr: string) returns (r: Option<Compiled>)
    ensures r == TableFilter.ParseFilter(num, expr)
  {
    hide TableFilter.ParseOr, Tokenize, TrimSpace;
    var text := TrimSpace(expr);
    if text == "" {
      return Some(Everything);
    }
    var toks := TokenizeFilter(num, text);
    if toks.None? {
      return None;
    }
    var p := new FilterParser(num, toks.value);
    assert toks.value[0..] == toks.value;
    var f := p.ParseOr();
    if f.None? || p.pos != |p.tokens| {
      return None;
    }
    return Some(Only(f.value));
  }
}
