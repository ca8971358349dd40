/**
 The words of a text, and a where clause read word by word in one pass: what the two rounds of splitting,
 first at "or" and then at "and", come to.
 */
module KqlWords {
  import opened Kql
  import opened KqlText
  import opened Strings
  import opened Wrappers

  // ---- Words ----

  predicate IsWord(w: string) {
    w != "" && forall i | 0 <= i < |w| :: !IsSpace(w[i])
  }

  predicate AreWords(ws: seq<string>) {
    forall i | 0 <= i < |ws| :: IsWord(ws[i])
  }

  lemma {:induction false} RunExtends(s: string, t: string, space: bool)
    requires t != "" && IsSpace(t[0]) != space
    ensures RunLength(s + t, space) == RunLength(s, space)
    decreases |s|
  {
    if s == "" {
      assert s + t == t;
    } else {
      assert (s + t)[1..] == s[1..] + t;
      if IsSpace(s[0]) == space { RunExtends(s[1..], t, space); }
    }
  }

  lemma {:induction false} FieldsAreWords(s: string)
    ensures AreWords(Fields(s))
    decreases |s|
  {
    if s != "" {
      FieldsAreWords(if IsSpace(s[0]) then s[1..] else s[RunLength(s, false)..]);
    }
  }

  lemma {:induction false} RunOfWord(w: string)
    requires IsWord(w)
    ensures RunLength(w, false) == |w|
  {
    if |w| > 1 { RunOfWord(w[1..]); }
  }

  lemma FieldsOfWord(w: string)
    requires IsWord(w)
    ensures Fields(w) == [w]
  {
    RunOfWord(w);
    assert w[..|w|] == w && w[|w|..] == "";
    assert Fields("") == [];
  }

  /** White space separates words. */
  lemma {:induction false} FieldsApart(a: string, c: char, b: string)
    requires IsSpace(c)
    ensures Fields(a + ([c] + b)) == Fields(a) + Fields(b)
    decreases |a|
  {
    var s := a + ([c] + b);
    if a == "" {
      assert s == [c] + b && ([c] + b)[1..] == b;
      assert [] + Fields(b) == Fields(b);
    } else if IsSpace(a[0]) {
      assert s[1..] == a[1..] + ([c] + b);
      FieldsApart(a[1..], c, b);
    } else {
      var n := RunLength(a, false);
      RunExtends(a, [c] + b, false);
      assert s[n..] == a[n..] + ([c] + b) && s[..n] == a[..n];
      FieldsApart(a[n..], c, b);
      FieldsFirst(a);
      FieldsFirst(s);
      hide Fields, RunLength;
      assert [a[..n]] + (Fields(a[n..]) + Fields(b)) == [a[..n]] + Fields(a[n..]) + Fields(b);
    }
  }

  lemma FieldsFirst(s: string)
    requires s != "" && !IsSpace(s[0])
    ensures Fields(s) == [s[..RunLength(s, false)]] + Fields(s[RunLength(s, false)..])
  {
  }

  lemma FieldsJoin(a: string, b: string)
    ensures Fields(a + (" " + b)) == Fields(a) + Fields(b)
  {
    FieldsApart(a, ' ', b);
  }

  lemma {:induction false} FieldsTrimRight(s: string)
    ensures Fields(TrimRight(s)) == Fields(s)
    decreases |s|
  {
    if s != "" && IsSpace(s[|s| - 1]) {
      var k := |s| - 1;
      FieldsTrimRight(s[..k]);
      FieldsApart(s[..k], s[k], "");
      assert s == s[..k] + ([s[k]] + "");
      assert Fields(s[..k]) + Fields("") == Fields(s[..k]);
    }
  }

  lemma {:induction false} FieldsTrimLeft(s: string)
    ensures Fields(TrimLeft(s)) == Fields(s)
    decreases |s|
  {
    if s != "" && IsSpace(s[0]) { FieldsTrimLeft(s[1..]); }
  }

  lemma FieldsTrim(s: string)
    ensures Fields(TrimSpace(s)) == Fields(s)
  {
    FieldsTrimLeft(s);
    FieldsTrimRight(TrimLeft(s));
  }

  lemma {:induction false} FieldsOfSpaced(ws: seq<string>)
    requires AreWords(ws)
    ensures Fields(Spaced(ws)) == ws
  {
    if ws == [] {
    } else if |ws| == 1 {
      FieldsOfWord(ws[0]);
    } else {
      FieldsJoin(ws[0], Spaced(ws[1..]));
      FieldsOfWord(ws[0]);
      FieldsOfSpaced(ws[1..]);
    }
  }

  lemma {:induction false} SpacedJoin(a: seq<string>, b: seq<string>)
    requires a != [] && b != []
    ensures Spaced(a + b) == Spaced(a) + (" " + Spaced(b))
    decreases |a|
  {
    if |a| == 1 {
      assert (a + b)[1..] == b;
    } else {
      assert (a + b)[1..] == a[1..] + b;
      SpacedJoin(a[1..], b);
      assert a[0] + (" " + (Spaced(a[1..]) + (" " + Spaced(b)))) == a[0] + (" " + Spaced(a[1..])) + (" " + Spaced(b));
    }
  }

  lemma SpacedNothing()
    ensures Spaced([]) == ""
  {
  }

  lemma SpacedPrefix(a: seq<string>, b: seq<string>)
    requires a <= b
    ensures Spaced(a) <= Spaced(b)
  {
    if a != [] && a != b {
      SpacedJoin(a, b[|a|..]);
      assert b == a + b[|a|..];
    }
  }

  lemma {:induction false} FieldsSkip(s: string, n: nat)
    requires n <= |s| && forall i | 0 <= i < n :: IsSpace(s[i])
    ensures Fields(s) == Fields(s[n..])
    decreases n
  {
    if n > 0 {
      FieldsSkip(s[1..], n - 1);
      assert s[1..][n - 1..] == s[n..];
    } else {
      assert s[0..] == s;
    }
  }

  predicate IsTight(s: string) {
    s != "" && !IsSpace(s[0]) && !IsSpace(s[|s| - 1])
  }

  lemma {:induction false} SpacedTight(part: seq<string>)
    requires AreWords(part) && part != []
    ensures IsTight(Spaced(part))
    decreases |part|
  {
    if |part| > 1 {
      SpacedTight(part[1..]);
      TightJoin(part[0], " ", Spaced(part[1..]));
    }
  }

  lemma TightJoin(a: string, mid: string, b: string)
    requires IsTight(a) && IsTight(b)
    ensures IsTight(a + (mid + b))
  {
    assert (a + (mid + b))[|a + (mid + b)| - 1] == b[|b| - 1];
  }

  lemma TrimTight(s: string)
    requires IsTight(s)
    ensures TrimSpace(s) == s && TrimSpace(" " + s) == s && TrimSpace(s + " ") == s
  {
    assert TrimLeft(s) == s && TrimRight(s) == s;
    assert (" " + s)[1..] == s;
    assert TrimLeft(" " + s) == TrimLeft(s);
    assert (s + " ")[..|s|] == s;
    assert TrimLeft(s + " ") == s + " ";
    assert TrimRight(s + " ") == TrimRight(s);
  }

  // ---- Squeezing ----

  /** Every run of white space becomes one blank. */
  function Squeeze(s: string): string
    decreases |s|
  {
    if s == "" then ""
    else if IsSpace(s[0]) then " " + Squeeze(s[RunLength(s, true)..])
    else [s[0]] + Squeeze(s[1..])
  }

  /** White space is single blanks only. */
  predicate SingleSpaced(s: string) {
    forall i | 0 <= i < |s| && IsSpace(s[i]) :: s[i] == ' ' && (i + 1 < |s| ==> !IsSpace(s[i + 1]))
  }

  lemma {:induction false} SqueezeShortens(s: string)
    ensures |Squeeze(s)| <= |s|
    ensures Squeeze(s) == s <==> SingleSpaced(s)
    decreases |s|
  {
    if s != "" {
      if IsSpace(s[0]) {
        var n := RunLength(s, true);
        SqueezeShortens(s[n..]);
        if n == 1 {
          SingleSpacedRest(s);
        }
      } else {
        SqueezeShortens(s[1..]);
        SingleSpacedRest(s);
      }
    }
  }

  lemma SingleSpacedRest(s: string)
    requires s != "" && (IsSpace(s[0]) ==> RunLength(s, true) == 1)
    ensures SingleSpaced(s) <==> (IsSpace(s[0]) ==> s[0] == ' ') && SingleSpaced(s[1..])
    ensures IsSpace(s[0]) && |s| > 1 ==> !IsSpace(s[1])
  {
    var t := s[1..];
    assert forall i | 0 <= i < |t| :: t[i] == s[i + 1];
    if SingleSpaced(t) && (IsSpace(s[0]) ==> s[0] == ' ') {
      forall i | 0 <= i < |s| && IsSpace(s[i]) ensures s[i] == ' ' && (i + 1 < |s| ==> !IsSpace(s[i + 1])) {
        if i > 0 { assert s[i] == t[i - 1]; }
      }
    }
    if SingleSpaced(s) {
      forall i | 0 <= i < |t| && IsSpace(t[i]) ensures t[i] == ' ' && (i + 1 < |t| ==> !IsSpace(t[i + 1])) {
        assert t[i] == s[i + 1];
      }
    }
  }

  lemma {:induction false} SqueezeKeepsOut(s: string, c: char)
    requires c !in s && c != ' '
    ensures c !in Squeeze(s)
    decreases |s|
  {
    if s != "" {
      SqueezeKeepsOut(if IsSpace(s[0]) then s[RunLength(s, true)..] else s[1..], c);
    }
  }

  lemma {:induction false} SqueezeEnd(s: string, q: char)
    requires !IsSpace(q)
    ensures Squeeze(s + [q]) == Squeeze(s) + [q]
    decreases |s|
  {
    if s == "" {
      assert s + [q] == [q] && [q][1..] == "";
    } else if IsSpace(s[0]) {
      var n := RunLength(s, true);
      RunExtends(s, [q], true);
      assert (s + [q])[n..] == s[n..] + [q];
      SqueezeEnd(s[n..], q);
    } else {
      assert (s + [q])[1..] == s[1..] + [q];
      SqueezeEnd(s[1..], q);
    }
  }

  lemma {:induction false} SqueezeWord(w: string, rest: string)
    requires IsWord(w)
    ensures Squeeze(w + rest) == w + Squeeze(rest)
    decreases |w|
  {
    assert (w + rest)[1..] == w[1..] + rest;
    if |w| == 1 {
      assert w[1..] + rest == rest && w == [w[0]];
    } else {
      SqueezeWord(w[1..], rest);
      assert w == [w[0]] + w[1..];
    }
  }

  /** Taking a text apart and putting it together squeezes it. */
  lemma {:induction false} SpacedOfFields(s: string)
    requires IsTight(s)
    ensures Fields(s) != [] && Spaced(Fields(s)) == Squeeze(s)
    decreases |s|
  {
    var n := RunLength(s, false);
    var w, rest := s[..n], s[n..];
    assert s == w + rest;
    SqueezeWord(w, rest);
    if rest == "" {
      assert Fields(rest) == [] && Squeeze(rest) == "";
    } else {
      var k := RunLength(rest, true);
      var tail := rest[k..];
      assert k < |rest| by { assert rest[|rest| - 1] == s[|s| - 1]; }
      FieldsSkip(rest, k);
      SpacedOfFields(tail);
    }
  }

  lemma {:induction false} SpacedSingle(ws: seq<string>)
    requires AreWords(ws)
    ensures SingleSpaced(Spaced(ws))
    decreases |ws|
  {
    if |ws| > 1 {
      SpacedSingle(ws[1..]);
      SpacedTight(ws[1..]);
      var s, t := Spaced(ws), Spaced(ws[1..]);
      var n := |ws[0]|;
      assert s == ws[0] + (" " + t);
      forall i | 0 <= i < |s| && IsSpace(s[i]) ensures s[i] == ' ' && (i + 1 < |s| ==> !IsSpace(s[i + 1])) {
        if i > n {
          assert s[i] == t[i - n - 1] && (i + 1 < |s| ==> s[i + 1] == t[i - n]);
        } else {
          assert i == n && s[n + 1] == t[0];
        }
      }
    }
  }

  // ---- Cutting at keywords ----

  datatype Keyword = And | Or | Either

  predicate Stops(k: Keyword, w: string) {
    match k
    case And => Lower(w) == "and"
    case Or => Lower(w) == "or"
    case Either => Lower(w) == "and" || Lower(w) == "or"
  }

  lemma OneKeyword(w: string)
    ensures Stops(Either, w) <==> Stops(And, w) || Stops(Or, w)
    ensures !(Stops(And, w) && Stops(Or, w))
  {
  }

  /** The number of words before the first keyword outside quotes. */
  function FirstCut(ws: seq<string>, k: Keyword, quote: Option<char>): (n: nat)
    ensures n <= |ws|
    ensures n < |ws| ==> Stops(k, ws[n])
  {
    if ws == [] || (quote.None? && Stops(k, ws[0])) then 0
    else 1 + FirstCut(ws[1..], k, QuoteAfter(quote, ws[0]))
  }

  /** Inside which quotes a sequence of words ends. */
  function QuoteAfterWords(quote: Option<char>, ws: seq<string>): Option<char>
    decreases |ws|
  {
    if ws == [] then quote else QuoteAfterWords(QuoteAfter(quote, ws[0]), ws[1..])
  }

  lemma {:induction false} QuoteAppend(quote: Option<char>, s: string, t: string)
    ensures QuoteAfter(quote, s + t) == QuoteAfter(QuoteAfter(quote, s), t)
    decreases |s|
  {
    if s == "" {
      assert s + t == t;
    } else {
      assert (s + t)[1..] == s[1..] + t;
      QuoteAppend(if quote.None? then if IsQuote(s[0]) then Some(s[0]) else None
                  else if s[0] == quote.value then None else quote, s[1..], t);
    }
  }

  /** White space opens and closes no quotes. */
  lemma {:induction false} QuoteOfFields(quote: Option<char>, s: string)
    requires quote.Some? ==> IsQuote(quote.value)
    ensures QuoteAfterWords(quote, Fields(s)) == QuoteAfter(quote, s)
    decreases |s|
  {
    if s != "" {
      if IsSpace(s[0]) {
        QuoteOfFields(quote, s[1..]);
      } else {
        var n := RunLength(s, false);
        assert s == s[..n] + s[n..];
        QuoteAppend(quote, s[..n], s[n..]);
        QuoteStays(quote, s[..n]);
        QuoteOfFields(QuoteAfter(quote, s[..n]), s[n..]);
        assert Fields(s)[1..] == Fields(s[n..]);
      }
    }
  }

  lemma {:induction false} QuoteStays(quote: Option<char>, s: string)
    requires quote.Some? ==> IsQuote(quote.value)
    ensures QuoteAfter(quote, s).Some? ==> IsQuote(QuoteAfter(quote, s).value)
    decreases |s|
  {
    if s != "" {
      QuoteStays(if quote.None? then if IsQuote(s[0]) then Some(s[0]) else None
                 else if s[0] == quote.value then None else quote, s[1..]);
    }
  }

  lemma {:induction false} CutAppend(a: seq<string>, b: seq<string>, k: Keyword, quote: Option<char>)
    ensures var n := FirstCut(a, k, quote);
            FirstCut(a + b, k, quote) ==
            if n < |a| then n else |a| + FirstCut(b, k, QuoteAfterWords(quote, a))
    decreases |a|
  {
    if a == [] {
      assert a + b == b;
    } else {
      assert (a + b)[1..] == a[1..] + b;
      if !(quote.None? && Stops(k, a[0])) {
        CutAppend(a[1..], b, k, QuoteAfter(quote, a[0]));
      }
    }
  }

  lemma {:induction false} QuoteWordsAppend(quote: Option<char>, a: seq<string>, b: seq<string>)
    ensures QuoteAfterWords(quote, a + b) == QuoteAfterWords(QuoteAfterWords(quote, a), b)
    decreases |a|
  {
    if a == [] {
      assert a + b == b;
    } else {
      assert (a + b)[1..] == a[1..] + b;
      QuoteWordsAppend(QuoteAfter(quote, a[0]), a[1..], b);
    }
  }

  // ---- One pass ----

  /** A comparison in front of a clause, in its first group or in a group of its own. */
  function InFront(same: bool, c: Option<Comparison>, p: Option<Predicate>): Option<Predicate>
    requires p.Some? ==> p.value != []
  {
    if c.None? || p.None? then None
    else if same then Some([[c.value] + p.value[0]] + p.value[1..])
    else Some([[c.value]] + p.value)
  }

  /** Up to the first keyword of either kind a comparison, and behind it the rest of the clause. */
  function ReadWords(num: Numerals, ws: seq<string>): (r: Option<Predicate>)
    ensures r.Some? ==> r.value != []
    decreases |ws|
  {
    var n := FirstCut(ws, Either, None);
    var c := ParseComparison(num, Spaced(ws[..n]));
    if n == |ws| then (if c.Some? then Some([[c.value]]) else None)
    else InFront(Stops(And, ws[n]), c, ReadWords(num, ws[n + 1..]))
  }

  function TextOf(k: Keyword): string
    requires !k.Either?
  {
    if k.And? then "and" else "or"
  }

  lemma {:induction false} SplitFirst(ws: seq<string>, k: Keyword, quote: Option<char>, part: seq<string>)
    requires !k.Either?
    ensures var n := FirstCut(ws, k, quote);
            SplitWords(ws, TextOf(k), quote, part) ==
            [Spaced(part + ws[..n])] + if n == |ws| then [] else SplitWords(ws[n + 1..], TextOf(k), None, [])
    decreases |ws|
  {
    hide Spaced, QuoteAfter, Lower;
    if ws == [] || (quote.None? && Stops(k, ws[0])) {
      assert part + ws[..0] == part;
    } else {
      var rest, n := ws[1..], FirstCut(ws, k, quote);
      SplitFirst(rest, k, QuoteAfter(quote, ws[0]), part + [ws[0]]);
      assert part + [ws[0]] + rest[..n - 1] == part + ws[..n];
      assert n < |ws| ==> rest[n..] == ws[n + 1..];
    }
  }

  lemma {:induction false} NoQuoteAfter(w: string, quote: Option<char>)
    requires forall i | 0 <= i < |w| :: if quote.None? then !IsQuote(w[i]) else w[i] != quote.value
    ensures QuoteAfter(quote, w) == quote
    decreases |w|
  {
    if w != "" { NoQuoteAfter(w[1..], quote); }
  }

  lemma KeywordQuotes(w: string)
    requires Stops(Either, w)
    ensures QuoteAfter(None, w) == None
  {
    forall i | 0 <= i < |w| ensures !IsQuote(w[i]) { assert Lower(w)[i] == LowerChar(w[i]); }
    NoQuoteAfter(w, None);
  }

  lemma CutUnfold(ws: seq<string>, k: Keyword, quote: Option<char>)
    requires ws != []
    ensures FirstCut(ws, k, quote) ==
            if quote.None? && Stops(k, ws[0]) then 0 else 1 + FirstCut(ws[1..], k, QuoteAfter(quote, ws[0]))
  {
  }

  /** The first keyword of either kind, at n, is the first "or", at m, or the first "and" before it. */
  predicate OneCut(ws: seq<string>, quote: Option<char>, m: nat, n: nat) {
    && n <= m <= |ws| && FirstCut(ws[..m], And, quote) == n
    && (n < m ==> Stops(And, ws[n]) && m == n + 1 + FirstCut(ws[n + 1..], Or, None))
    && (n == m < |ws| ==> Stops(Or, ws[n]))
  }

  lemma {:induction false} CutTwice(ws: seq<string>, quote: Option<char>)
    ensures OneCut(ws, quote, FirstCut(ws, Or, quote), FirstCut(ws, Either, quote))
    decreases |ws|
  {
    hide Stops, QuoteAfter;
    if ws != [] {
      hide FirstCut;
      OneKeyword(ws[0]);
      CutUnfold(ws, Or, quote);
      CutUnfold(ws, Either, quote);
      if quote.None? && Stops(Or, ws[0]) {
        NoCut(And, quote);
        assert ws[..0] == [];
      } else if quote.None? && Stops(And, ws[0]) {
        KeywordQuotes(ws[0]);
        CutUnfold(ws[..FirstCut(ws, Or, quote)], And, quote);
      } else {
        hide OneCut;
        CutTwice(ws[1..], QuoteAfter(quote, ws[0]));
        CutOneOn(ws, quote, FirstCut(ws, Or, quote), FirstCut(ws, Either, quote));
      }
    }
  }

  lemma CutOneOn(ws: seq<string>, quote: Option<char>, m: nat, n: nat)
    requires ws != [] && m > 0 && n > 0 && !(quote.None? && Stops(And, ws[0]))
    requires OneCut(ws[1..], QuoteAfter(quote, ws[0]), m - 1, n - 1)
    ensures OneCut(ws, quote, m, n)
  {
    hide Stops, QuoteAfter, FirstCut;
    CutUnfold(ws[..m], And, quote);
    assert ws[..m][0] == ws[0] && ws[..m][1..] == ws[1..][..m - 1];
    assert n < |ws| ==> ws[n + 1..] == ws[1..][n..] && ws[n] == ws[1..][n - 1];
  }

  lemma NoCut(k: Keyword, quote: Option<char>)
    ensures FirstCut([], k, quote) == 0
  {
  }

  /** One group: its words up to the first "and", and the rest. */
  lemma GroupStep(num: Numerals, ws: seq<string>)
    ensures var n := FirstCut(ws, And, None);
            ParseGroup(num, SplitWords(ws, "and", None, [])) ==
            AfterFirst(ParseComparison(num, Spaced(ws[..n])),
                       if n == |ws| then Some([]) else ParseGroup(num, SplitWords(ws[n + 1..], "and", None, [])))
  {
    hide ParseComparison, SplitWords, FirstCut, Spaced;
    var n := FirstCut(ws, And, None);
    assert TextOf(And) == "and";
    SplitFirst(ws, And, None, []);
    assert [] + ws[..n] == ws[..n];
    var parts := SplitWords(ws, "and", None, []);
    assert parts[0] == Spaced(ws[..n]);
    assert parts[1..] == if n == |ws| then [] else SplitWords(ws[n + 1..], "and", None, []);
    assert ParseGroup(num, []) == Some([]);
  }

  function AfterFirst(c: Option<Comparison>, cs: Option<seq<Comparison>>): Option<seq<Comparison>> {
    if c.None? || cs.None? then None else Some([c.value] + cs.value)
  }

  function AfterGroup(g: Option<seq<Comparison>>, gs: Option<Predicate>): Option<Predicate> {
    if g.None? || gs.None? then None else Some([g.value] + gs.value)
  }

  /** A clause: its words up to the first "or", and the rest. */
  lemma ClauseStep(num: Numerals, ws: seq<string>)
    requires AreWords(ws)
    ensures var m := FirstCut(ws, Or, None);
            ParseGroups(num, SplitWords(ws, "or", None, [])) ==
            AfterGroup(ParseGroup(num, SplitWords(ws[..m], "and", None, [])),
                       if m == |ws| then Some([]) else ParseGroups(num, SplitWords(ws[m + 1..], "or", None, [])))
  {
    hide ParseGroup, SplitWords, Fields, Spaced, FirstCut;
    assert TextOf(Or) == "or";
    var m := FirstCut(ws, Or, None);
    SplitFirst(ws, Or, None, []);
    assert [] + ws[..m] == ws[..m];
    FieldsOfSpaced(ws[..m]);
    var parts := SplitWords(ws, "or", None, []);
    assert parts[0] == Spaced(ws[..m]);
    assert parts[1..] == if m == |ws| then [] else SplitWords(ws[m + 1..], "or", None, []);
    assert ParseGroups(num, []) == Some([]);
  }

  lemma {:induction false} OnePass(num: Numerals, ws: seq<string>)
    requires AreWords(ws)
    ensures ParseGroups(num, SplitWords(ws, "or", None, [])) == ReadWords(num, ws)
    decreases |ws|
  {
    hide ParseComparison, ParseGroup, ParseGroups, SplitWords, Spaced, FirstCut, Stops;
    var m, n := FirstCut(ws, Or, None), FirstCut(ws, Either, None);
    CutTwice(ws, None);
    ClauseStep(num, ws);
    GroupStep(num, ws[..m]);
    assert ws[..m][..n] == ws[..n];
    var c := ParseComparison(num, Spaced(ws[..n]));
    assert c.Some? ==> [c.value] + [] == [c.value];
    if n < m {
      var rest := ws[n + 1..];
      OnePass(num, rest);
      ClauseStep(num, rest);
      assert ws[..m][n + 1..] == rest[..m - n - 1];
      assert m < |ws| ==> rest[m - n..] == ws[m + 1..];
    } else if n < |ws| {
      OneKeyword(ws[n]);
      OnePass(num, ws[n + 1..]);
      OneAlone(num, ws, m);
    } else {
      OneAlone(num, ws, m);
      assert c.Some? ==> [[c.value]] + [] == [[c.value]];
    }
  }

  lemma OneAlone(num: Numerals, ws: seq<string>, m: nat)
    requires m <= |ws| && FirstCut(ws[..m], And, None) == m
    ensures var c := ParseComparison(num, Spaced(ws[..m]));
            ParseGroup(num, SplitWords(ws[..m], "and", None, [])) == if c.None? then None else Some([c.value])
  {
    hide ParseComparison, ParseGroup, SplitWords, Spaced, FirstCut;
    GroupStep(num, ws[..m]);
    assert ws[..m][..m] == ws[..m];
    var c := ParseComparison(num, Spaced(ws[..m]));
    assert c.Some? ==> [c.value] + [] == [c.value];
  }

  /** The parser reads a text word by word in one pass. */
  lemma ReadsWords(num: Numerals, text: string)
    requires Fields(text) != []
    ensures ParsePredicate(num, text) == ReadWords(num, Fields(text))
  {
    hide Fields, SplitWords, ParseGroups, ReadWords, TrimSpace;
    FieldsTrim(text);
    FieldsOfNothing();
    FieldsAreWords(text);
    OnePass(num, Fields(text));
  }

  lemma FieldsOfNothing()
    ensures Fields("") == []
  {
  }
}
