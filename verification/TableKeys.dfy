/**
 Entity keys in a Table URL: t(PartitionKey='p',RowKey='r') printed with quotes doubled, split at top-level commas,
 and read back.
 */
module TableKeys {
  import opened Strings

  // ---- The printer ----

  function KeyText(name: string, key: string): string {
    name + ("='" + (DoubleQuotes(key) + "'"))
  }

  /** What the location of an entity ends with. */
  function EntitySegment(table: string, pk: string, rk: string): string {
    table + ("(" + (KeyText("PartitionKey", pk) + ("," + KeyText("RowKey", rk)) + ")"))
  }

  // ---- The reader ----

  function SplitPredicate(seg: string): (string, string) {
    var i := Index(seg, "(");
    if i < 0 then (seg, "") else (seg[..i], TrimSuffix(seg[i + 1..], ')'))
  }

  function TrimPrefix(s: string, c: char): string {
    if s != "" && s[0] == c then s[1..] else s
  }

  function TrimSuffix(s: string, c: char): string {
    if s != "" && s[|s| - 1] == c then s[..|s| - 1] else s
  }

  /** Every pair of quotes, from the left, made one. */
  function HalveQuotes(s: string): string {
    if s == "" then ""
    else if |s| > 1 && s[0] == '\'' == s[1] then "'" + HalveQuotes(s[2..])
    else [s[0]] + HalveQuotes(s[1..])
  }

  function UnquoteKey(s: string): string {
    HalveQuotes(TrimSuffix(TrimPrefix(TrimSpace(s), '\''), '\''))
  }

  /** The parts of s between separators outside quotes; cur is the part begun, and an empty last part is dropped. */
  function Split(s: string, sep: char, cur: string, inQuote: bool): seq<string>
    decreases |s|
  {
    if s == "" then (if cur == "" then [] else [cur])
    else if s[0] == '\'' then Split(s[1..], sep, cur + [s[0]], !inQuote)
    else if s[0] == sep && !inQuote then [cur] + Split(s[1..], sep, "", inQuote)
    else Split(s[1..], sep, cur + [s[0]], inQuote)
  }

  /** The keys after one more part: a part that names neither key changes nothing. */
  function WithPart(keys: (string, string), part: string): (string, string) {
    var eq := Index(part, "=");
    if eq < 0 then keys
    else
      var name := Lower(TrimSpace(part[..eq]));
      if name == "partitionkey" then (UnquoteKey(part[eq + 1..]), keys.1)
      else if name == "rowkey" then (keys.0, UnquoteKey(part[eq + 1..]))
      else keys
  }

  function WithParts(keys: (string, string), parts: seq<string>): (string, string)
    decreases |parts|
  {
    if parts == [] then keys else WithParts(WithPart(keys, parts[0]), parts[1..])
  }

  function ParseEntityKeys(text: string): (string, string) {
    WithParts(("", ""), Split(text, ',', "", false))
  }

  // ---- The reader as it runs ----

  method SplitTopLevel(s: string, sep: char) returns (parts: seq<string>)
    requires sep != '\''
    ensures parts == Split(s, sep, "", false)
  {
    hide Split;
    parts := [];
    var cur := "";
    var inQuote := false;
    assert s[0..] == s && [] + Split(s, sep, "", false) == Split(s, sep, "", false);
    for i := 0 to |s|
      invariant parts + Split(s[i..], sep, cur, inQuote) == Split(s, sep, "", false)
    {
      var c := s[i];
      SplitStep(s, i, sep, cur, inQuote);
      if c == '\'' {
        inQuote := !inQuote;
        cur := cur + [c];
      } else if c == sep && !inQuote {
        assert parts + ([cur] + Split(s[i + 1..], sep, "", inQuote)) == parts + [cur] + Split(s[i + 1..], sep, "", inQuote);
        parts := parts + [cur];
        cur := "";
      } else {
        cur := cur + [c];
      }
    }
    SplitEnd(sep, cur, inQuote);
    assert s[|s|..] == "" && parts + [] == parts;
    if |cur| > 0 {
      parts := parts + [cur];
    }
  }

  lemma SplitStep(s: string, i: nat, sep: char, cur: string, inQuote: bool)
    requires i < |s|
    ensures Split(s[i..], sep, cur, inQuote) ==
            if s[i] == '\'' then Split(s[i + 1..], sep, cur + [s[i]], !inQuote)
            else if s[i] == sep && !inQuote then [cur] + Split(s[i + 1..], sep, "", inQuote)
            else Split(s[i + 1..], sep, cur + [s[i]], inQuote)
  {
    assert s[i..][1..] == s[i + 1..];
  }

  lemma SplitEnd(sep: char, cur: string, inQuote: bool)
    ensures Split("", sep, cur, inQuote) == if cur == "" then [] else [cur]
  {
  }

  method ReadEntityKeys(text: string) returns (pk: string, rk: string)
    ensures (pk, rk) == ParseEntityKeys(text)
  {
    hide Split, UnquoteKey, TrimSpace, Lower;
    pk, rk := "", "";
    var parts := SplitTopLevel(text, ',');
    assert parts[0..] == parts;
    for i := 0 to |parts|
      invariant WithParts((pk, rk), parts[i..]) == ParseEntityKeys(text)
    {
      var part := parts[i];
      assert parts[i..][0] == part && parts[i..][1..] == parts[i + 1..];
      var eq := Index(part, "=");
      if eq < 0 {
        continue;
      }
      var key := Lower(TrimSpace(part[..eq]));
      var val := UnquoteKey(part[eq + 1..]);
      if key == "partitionkey" {
        pk := val;
      } else if key == "rowkey" {
        rk := val;
      }
    }
  }

  // ---- What splitting means ----

  function Join(parts: seq<string>, sep: char): string {
    if parts == [] then "" else if |parts| == 1 then parts[0] else parts[0] + [sep] + Join(parts[1..], sep)
  }

  function QuoteCount(s: string): nat {
    if s == "" then 0 else QuoteCount(s[..|s| - 1]) + if s[|s| - 1] == '\'' then 1 else 0
  }

  /** Every separator in s has an odd number of quotes before it. */
  ghost predicate SeparatorsQuoted(s: string, sep: char) {
    forall i | 0 <= i < |s| && s[i] == sep :: QuoteCount(s[..i]) % 2 == 1
  }

  lemma Grown(cur: string, c: char, sep: char)
    requires sep != '\'' && SeparatorsQuoted(cur, sep) && (c == sep ==> QuoteCount(cur) % 2 == 1)
    ensures SeparatorsQuoted(cur + [c], sep)
    ensures QuoteCount(cur + [c]) == QuoteCount(cur) + if c == '\'' then 1 else 0
  {
    hide QuoteCount;
    var s := cur + [c];
    forall i | 0 <= i < |s| && s[i] == sep ensures QuoteCount(s[..i]) % 2 == 1 {
      assert s[..i] == cur[..i];
      if i == |cur| {
        assert cur[..i] == cur;
      } else {
        assert cur[i] == sep;
      }
    }
    CountLast(cur, c);
  }

  lemma CountLast(cur: string, c: char)
    ensures QuoteCount(cur + [c]) == QuoteCount(cur) + if c == '\'' then 1 else 0
  {
    assert (cur + [c])[..|cur|] == cur;
  }

  /**
   Splitting loses nothing but an empty last part, and cuts exactly at the separators outside quotes:
   joined again the parts are the text, every separator left inside a part is quoted, and none was
   quoted where a part was cut off.
   */
  lemma {:induction false} SplitFacts(s: string, sep: char, cur: string, inQuote: bool)
    requires sep != '\'' && SeparatorsQuoted(cur, sep) && inQuote == (QuoteCount(cur) % 2 == 1)
    ensures var parts := Split(s, sep, cur, inQuote);
            && (Join(parts, sep) == cur + s || Join(parts, sep) + [sep] == cur + s)
            && (parts == [] ==> cur + s == "")
            && (forall k | 0 <= k < |parts| :: SeparatorsQuoted(parts[k], sep))
            && forall k | 0 <= k < |parts| - 1 :: QuoteCount(parts[k]) % 2 == 0
    decreases |s|
  {
    hide SeparatorsQuoted, QuoteCount;
    if s == "" {
      assert cur + s == cur;
    } else if s[0] == sep && !inQuote {
      SplitFacts(s[1..], sep, "", false) by { NothingQuoted(sep); }
      var rest := Split(s[1..], sep, "", false);
      assert ([cur] + rest)[1..] == rest;
      CutHere(cur, s, sep, Join(rest, sep));
    } else {
      Grown(cur, s[0], sep);
      SplitFacts(s[1..], sep, cur + [s[0]], if s[0] == '\'' then !inQuote else inQuote);
      assert cur + s == cur + [s[0]] + s[1..];
    }
  }

  lemma CutHere(cur: string, s: string, sep: char, rest: string)
    requires s != "" && s[0] == sep
    ensures "" + s[1..] == s[1..] && cur + s == cur + [sep] + s[1..]
    ensures cur + [sep] + (rest + [sep]) == cur + [sep] + rest + [sep]
  {
  }

  lemma NothingQuoted(sep: char)
    ensures SeparatorsQuoted("", sep) && QuoteCount("") == 0
  {
  }

  // ---- The round trip ----

  lemma {:induction false} HalvedDoubled(key: string)
    ensures HalveQuotes(DoubleQuotes(key)) == key
  {
    if key != "" {
      HalvedDoubled(key[1..]);
      var tail := DoubleQuotes(key[1..]);
      assert ("''" + tail)[2..] == tail && ([key[0]] + tail)[1..] == tail;
      assert key == [key[0]] + key[1..];
    }
  }

  lemma UnquotedKey(key: string)
    ensures UnquoteKey("'" + (DoubleQuotes(key) + "'")) == key
  {
    hide HalveQuotes, DoubleQuotes;
    var text := "'" + (DoubleQuotes(key) + "'");
    assert TrimSpace(text) == text;
    assert text[1..] == DoubleQuotes(key) + "'";
    assert (DoubleQuotes(key) + "'")[..|DoubleQuotes(key)|] == DoubleQuotes(key);
    HalvedDoubled(key);
  }

  /** Inside quotes a doubled text is passed over whole, separators and all. */
  lemma {:induction false} SplitPassesQuoted(key: string, rest: string, sep: char, cur: string)
    requires sep != '\''
    ensures Split(DoubleQuotes(key) + rest, sep, cur, true) == Split(rest, sep, cur + DoubleQuotes(key), true)
    decreases |key|
  {
    hide Split;
    if key == "" {
      assert DoubleQuotes(key) + rest == rest && cur + "" == cur;
    } else {
      var tail := DoubleQuotes(key[1..]) + rest;
      var head := if key[0] == '\'' then "''" else [key[0]];
      assert DoubleQuotes(key) + rest == head + tail;
      SplitPassesChar(key[0], tail, sep, cur);
      SplitPassesQuoted(key[1..], rest, sep, cur + head);
      assert cur + head + DoubleQuotes(key[1..]) == cur + DoubleQuotes(key);
    }
  }

  lemma SplitPassesChar(c: char, tail: string, sep: char, cur: string)
    requires sep != '\''
    ensures var head := if c == '\'' then "''" else [c];
            Split(head + tail, sep, cur, true) == Split(tail, sep, cur + head, true)
  {
    if c == '\'' {
      assert ("''" + tail)[1..] == "'" + tail && ("'" + tail)[1..] == tail;
      assert cur + "'" + "'" == cur + "''";
    } else {
      assert ([c] + tail)[1..] == tail;
    }
  }

  lemma {:induction false} SplitPassesWord(w: string, rest: string, sep: char, cur: string)
    requires sep != '\'' && sep !in w && '\'' !in w
    ensures Split(w + rest, sep, cur, false) == Split(rest, sep, cur + w, false)
    decreases |w|
  {
    if w == "" {
      assert w + rest == rest && cur + w == cur;
    } else {
      assert (w + rest)[1..] == w[1..] + rest;
      SplitPassesWord(w[1..], rest, sep, cur + [w[0]]);
      assert cur + [w[0]] + w[1..] == cur + w;
    }
  }

  lemma SplitQuote(rest: string, sep: char, cur: string, inQuote: bool)
    ensures Split("'" + rest, sep, cur, inQuote) == Split(rest, sep, cur + "'", !inQuote)
  {
    assert ("'" + rest)[1..] == rest;
  }

  /** A printed key is one part, and what follows it starts afresh. */
  lemma SplitPassesKey(name: string, key: string, rest: string)
    requires ',' !in name && '\'' !in name
    ensures Split(KeyText(name, key) + rest, ',', "", false) == Split(rest, ',', KeyText(name, key), false)
  {
    hide Split, DoubleQuotes;
    var quoted := DoubleQuotes(key);
    assert KeyText(name, key) + rest == (name + "=") + ("'" + (quoted + ("'" + rest)));
    SplitPassesWord(name + "=", "'" + (quoted + ("'" + rest)), ',', "");
    assert "" + (name + "=") == name + "=";
    SplitQuote(quoted + ("'" + rest), ',', name + "=", false);
    SplitPassesQuoted(key, "'" + rest, ',', name + "=" + "'");
    SplitQuote(rest, ',', name + "=" + "'" + quoted, true);
    assert name + "=" + "'" + quoted + "'" == KeyText(name, key);
  }

  lemma SplitTwoKeys(n1: string, k1: string, n2: string, k2: string)
    requires ',' !in n1 && '\'' !in n1 && ',' !in n2 && '\'' !in n2
    ensures Split(KeyText(n1, k1) + ("," + KeyText(n2, k2)), ',', "", false) == [KeyText(n1, k1), KeyText(n2, k2)]
  {
    hide KeyText, DoubleQuotes;
    var a, b := KeyText(n1, k1), KeyText(n2, k2);
    SplitPassesKey(n1, k1, "," + b);
    assert ("," + b)[1..] == b;
    assert Split("," + b, ',', a, false) == [a] + Split(b, ',', "", false);
    SplitPassesKey(n2, k2, "");
    assert b + "" == b;
    assert b != "" by { assert |b| > 0 by { KeyTextLong(n2, k2); } }
  }

  lemma KeyTextLong(name: string, key: string)
    ensures |KeyText(name, key)| >= 3
  {
  }

  /** The two names, in any letter case, hold no character that means anything to the reader. */
  lemma NameIsPlain(w: string)
    requires Lower(w) == "partitionkey" || Lower(w) == "rowkey"
    ensures ',' !in w && '\'' !in w && '=' !in w && TrimSpace(w) == w
  {
    forall i | 0 <= i < |w| ensures 'a' <= LowerChar(w[i]) <= 'z' {
      assert Lower(w)[i] == LowerChar(w[i]);
    }
  }

  lemma FirstEquals(name: string, key: string)
    requires '=' !in name
    ensures var text := KeyText(name, key);
            && Index(text, "=") == |name|
            && text[..|name|] == name && text[|name| + 1..] == "'" + (DoubleQuotes(key) + "'")
  {
    hide DoubleQuotes;
    var text := KeyText(name, key);
    assert text == name + ("=" + ("'" + (DoubleQuotes(key) + "'")));
    assert OccursAt(text, "=", |name|);
    forall j | 0 <= j < |name| ensures !OccursAt(text, "=", j) {
      assert text[j] == name[j];
      assert text[j..j + 1] == [name[j]];
    }
  }

  lemma KeyPartReads(keys: (string, string), name: string, key: string)
    requires Lower(name) == "partitionkey" || Lower(name) == "rowkey"
    ensures WithPart(keys, KeyText(name, key)) ==
            if Lower(name) == "partitionkey" then (key, keys.1) else (keys.0, key)
  {
    hide UnquoteKey, DoubleQuotes, KeyText, Lower, TrimSpace;
    NameIsPlain(name);
    FirstEquals(name, key);
    UnquotedKey(key);
  }

  /** Two printed keys are read back as they were, in either order and with the names in any letter case. */
  lemma KeysRoundTrip(n1: string, pk: string, n2: string, rk: string)
    requires Lower(n1) == "partitionkey" && Lower(n2) == "rowkey"
    ensures ParseEntityKeys(KeyText(n1, pk) + ("," + KeyText(n2, rk))) == (pk, rk)
    ensures ParseEntityKeys(KeyText(n2, rk) + ("," + KeyText(n1, pk))) == (pk, rk)
  {
    hide Split, KeyText, WithPart, Lower;
    NameIsPlain(n1);
    NameIsPlain(n2);
    SplitTwoKeys(n1, pk, n2, rk);
    SplitTwoKeys(n2, rk, n1, pk);
    var a, b := KeyText(n1, pk), KeyText(n2, rk);
    TwoParts(("", ""), a, b);
    TwoParts(("", ""), b, a);
    KeyPartReads(("", ""), n1, pk);
    KeyPartReads((pk, ""), n2, rk);
    KeyPartReads(("", ""), n2, rk);
    KeyPartReads(("", rk), n1, pk);
  }

  lemma TwoParts(keys: (string, string), a: string, b: string)
    ensures WithParts(keys, [a, b]) == WithPart(WithPart(keys, a), b)
  {
    hide WithPart;
    assert [a, b][1..] == [b] && [b][1..] == [];
    assert WithParts(WithPart(keys, a), [b]) == WithParts(WithPart(WithPart(keys, a), b), []);
  }

  /** A part with any other name changes nothing, wherever it stands. */
  lemma OtherNamesIgnored(n1: string, pk: string, n2: string, rk: string, n3: string, other: string)
    requires Lower(n1) == "partitionkey" && Lower(n2) == "rowkey"
    requires Lower(TrimSpace(n3)) !in {"partitionkey", "rowkey"} && ',' !in n3 && '\'' !in n3 && '=' !in n3
    ensures ParseEntityKeys(KeyText(n3, other) + ("," + (KeyText(n1, pk) + ("," + KeyText(n2, rk))))) == (pk, rk)
    ensures ParseEntityKeys(KeyText(n1, pk) + ("," + (KeyText(n3, other) + ("," + KeyText(n2, rk))))) == (pk, rk)
    ensures ParseEntityKeys(KeyText(n1, pk) + ("," + (KeyText(n2, rk) + ("," + KeyText(n3, other))))) == (pk, rk)
  {
    hide Split, KeyText, WithPart, Lower, TrimSpace;
    NameIsPlain(n1);
    NameIsPlain(n2);
    var (a, b, c) := (KeyText(n1, pk), KeyText(n2, rk), KeyText(n3, other));
    forall keys ensures WithPart(keys, c) == keys { OtherPartReads(keys, n3, other); }
    SplitFirstKey(n3, other, a + ("," + b));
    SplitTwoKeys(n1, pk, n2, rk);
    SplitFirstKey(n1, pk, c + ("," + b));
    SplitTwoKeys(n3, other, n2, rk);
    SplitFirstKey(n1, pk, b + ("," + c));
    SplitTwoKeys(n2, rk, n3, other);
    ThreeParts(("", ""), c, a, b);
    ThreeParts(("", ""), a, c, b);
    ThreeParts(("", ""), a, b, c);
    KeyPartReads(("", ""), n1, pk);
    KeyPartReads((pk, ""), n2, rk);
  }

  lemma SplitFirstKey(name: string, key: string, rest: string)
    requires ',' !in name && '\'' !in name
    ensures Split(KeyText(name, key) + ("," + rest), ',', "", false) == [KeyText(name, key)] + Split(rest, ',', "", false)
  {
    hide KeyText;
    SplitPassesKey(name, key, "," + rest);
    assert ("," + rest)[1..] == rest;
  }

  lemma OtherPartReads(keys: (string, string), name: string, key: string)
    requires Lower(TrimSpace(name)) !in {"partitionkey", "rowkey"} && '=' !in name
    ensures WithPart(keys, KeyText(name, key)) == keys
  {
    hide UnquoteKey, DoubleQuotes, KeyText, Lower, TrimSpace;
    FirstEquals(name, key);
  }

  lemma ThreeParts(keys: (string, string), a: string, b: string, c: string)
    ensures WithParts(keys, [a] + [b, c]) == WithPart(WithPart(WithPart(keys, a), b), c)
  {
    hide WithPart;
    assert ([a] + [b, c])[1..] == [b, c];
    TwoParts(WithPart(keys, a), b, c);
  }

  /** A key that is not named is empty. */
  lemma OneKey(n1: string, pk: string, n2: string, rk: string)
    requires Lower(n1) == "partitionkey" && Lower(n2) == "rowkey"
    ensures ParseEntityKeys(KeyText(n1, pk)) == (pk, "") && ParseEntityKeys(KeyText(n2, rk)) == ("", rk)
    ensures ParseEntityKeys("") == ("", "")
  {
    OnePart(n1, pk);
    OnePart(n2, rk);
    hide Split, KeyText, WithPart, Lower;
    KeyPartReads(("", ""), n1, pk);
    KeyPartReads(("", ""), n2, rk);
  }

  lemma OnePart(name: string, key: string)
    requires Lower(name) == "partitionkey" || Lower(name) == "rowkey"
    ensures ParseEntityKeys(KeyText(name, key)) == WithPart(("", ""), KeyText(name, key))
    ensures ParseEntityKeys("") == ("", "")
  {
    hide KeyText, WithPart, Lower;
    var text := KeyText(name, key);
    NameIsPlain(name);
    SplitPassesKey(name, key, "");
    KeyTextLong(name, key);
    assert text + "" == text && Split("", ',', text, false) == [text] && [text][1..] == [];
    assert WithParts(("", ""), [text]) == WithParts(WithPart(("", ""), text), []);
  }

  /** A table by itself, with or without empty parentheses, comes with no predicate. */
  lemma WholeTable(table: string)
    requires '(' !in table
    ensures SplitPredicate(table) == (table, "") && SplitPredicate(table + "()") == (table, "")
  {
    forall j | 0 <= j < |table| ensures !OccursAt(table, "(", j) {
      if j + 1 <= |table| { assert table[j..j + 1] == [table[j]]; }
    }
    SegmentSplits(table, "");
    assert table + ("(" + ("" + ")")) == table + "()";
  }

  lemma SegmentSplits(table: string, inner: string)
    requires '(' !in table
    ensures SplitPredicate(table + ("(" + (inner + ")"))) == (table, inner)
  {
    var seg := table + ("(" + (inner + ")"));
    assert OccursAt(seg, "(", |table|);
    forall j | 0 <= j < |table| ensures !OccursAt(seg, "(", j) {
      assert seg[j..j + 1] == [table[j]];
    }
    assert seg[..|table|] == table && seg[|table| + 1..] == inner + ")";
    assert (inner + ")")[..|inner|] == inner;
  }

  /** The location printed for an entity leads back to its table and its keys, whatever characters the keys hold. */
  lemma LocationRoundTrip(table: string, pk: string, rk: string)
    requires '(' !in table
    ensures var (name, keys) := SplitPredicate(EntitySegment(table, pk, rk));
            name == table && ParseEntityKeys(keys) == (pk, rk)
  {
    hide KeyText, ParseEntityKeys, SplitPredicate;
    SegmentSplits(table, KeyText("PartitionKey", pk) + ("," + KeyText("RowKey", rk)));
    assert Lower("PartitionKey") == "partitionkey" && Lower("RowKey") == "rowkey";
    KeysRoundTrip("PartitionKey", pk, "RowKey", rk);
  }
}
