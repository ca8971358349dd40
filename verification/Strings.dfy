/** The string functions of Go's library that the models share. A Dafny char stands for one byte of a Go string. */
module Strings {
  import opened ByteOrder

  predicate OccursAt<T(==)>(s: seq<T>, t: seq<T>, i: int) {
    0 <= i && i + |t| <= |s| && s[i..i + |t|] == t
  }

  /** The first occurrence of t in s at or after `from`, or -1. */
  function Index<T(==)>(s: seq<T>, t: seq<T>, from: nat := 0): (i: int)
    ensures i >= 0 ==> from <= i && OccursAt(s, t, i) && forall j | from <= j < i :: !OccursAt(s, t, j)
    ensures i < 0 ==> i == -1 && forall j | from <= j :: !OccursAt(s, t, j)
    decreases |s| - from
  {
    if from + |t| > |s| then -1
    else if OccursAt(s, t, from) then from
    else Index(s, t, from + 1)
  }

  function LowerChar(c: char): char {
    if 'A' <= c <= 'Z' then c - 'A' + 'a' else c
  }

  /** ASCII lower case. */
  function Lower(s: string): (r: string)
    ensures |r| == |s|
    ensures forall i | 0 <= i < |s| :: r[i] == LowerChar(s[i])
  {
    seq(|s|, i requires 0 <= i < |s| => LowerChar(s[i]))
  }

  /** The 26 capital letters become their small ones, and nothing else changes. */
  lemma LowerLetters(c: char, k: nat)
    ensures k < 26 ==> LowerChar('A' + k as char) == 'a' + k as char
    ensures c as int < 65 || c as int > 90 ==> LowerChar(c) == c
  {
  }

  /** The bytes of a string. */
  function Codes(s: string): (r: seq<int>)
    ensures |r| == |s| && forall i | 0 <= i < |s| :: r[i] == s[i] as int
  {
    seq(|s|, i requires 0 <= i < |s| => s[i] as int)
  }

  predicate Less(a: string, b: string) {
    Lt(Codes(a), Codes(b))
  }

  lemma LessIsOrder(a: string, b: string, c: string)
    ensures !Less(a, a)
    ensures Less(a, b) && Less(b, c) ==> Less(a, c)
    ensures !(Less(a, b) && Less(b, a))
    ensures Less(a, b) || a == b || Less(b, a)
  {
    hide Lt;
    LtIrreflexive(Codes(a));
    LtTotal(Codes(a), Codes(b));
    if Less(a, b) && Less(b, c) { LtTransitive(Codes(a), Codes(b), Codes(c)); }
    if Less(a, b) && Less(b, a) { LtTransitive(Codes(a), Codes(b), Codes(a)); }
    if Codes(a) == Codes(b) {
      assert forall i | 0 <= i < |a| :: Codes(a)[i] == Codes(b)[i];
    }
  }

  predicate IsSpace(c: char) {
    c == ' ' || ('\t' <= c <= '\r')
  }

  function TrimLeft(s: string): string {
    if s != "" && IsSpace(s[0]) then TrimLeft(s[1..]) else s
  }

  function TrimRight(s: string): string {
    if s != "" && IsSpace(s[|s| - 1]) then TrimRight(s[..|s| - 1]) else s
  }

  /** White space gone from both ends. */
  function TrimSpace(s: string): string {
    TrimRight(TrimLeft(s))
  }

  /** Every quote doubled. */
  function DoubleQuotes(s: string): string {
    if s == "" then ""
    else (if s[0] == '\'' then "''" else [s[0]]) + DoubleQuotes(s[1..])
  }
}
