/** The stages of a query, and which queries are cut into the stages they were written from. */
module KqlPipeline {
  import opened KqlText
  import opened KqlWords
  import opened Strings

  function PipelineText(stages: seq<string>): string
    requires stages != []
  {
    if |stages| == 1 then stages[0] else stages[0] + (" | " + PipelineText(stages[1..]))
  }

  lemma FirstBar(s: string, j: nat)
    ensures Index(s, "|") < 0 <==> '|' !in s
    ensures Index(s, "|") >= 0 ==> Index(s, "|") < |s|
    ensures j < |s| && s[j] == '|' && '|' !in s[..j] ==> Index(s, "|") == j
  {
    forall i | 0 <= i < |s| ensures OccursAt(s, "|", i) <==> s[i] == '|' {
      assert s[i..i + 1] == [s[i]];
    }
    if j < |s| && s[j] == '|' && '|' !in s[..j] {
      forall i | 0 <= i < j ensures s[i] != '|' { assert s[..j][i] == s[i]; }
    }
  }

  lemma SplitAtFirst(s: string, i: nat)
    requires i < |s| && s[i] == '|' && '|' !in s[..i]
    ensures SplitPipeline(s) == [TrimSpace(s[..i])] + SplitPipeline(s[i + 1..])
  {
    hide TrimSpace, Index;
    FirstBar(s, i);
  }

  lemma {:induction false} SplitAtBar(a: string, b: string)
    ensures SplitPipeline(a + ("|" + b)) == SplitPipeline(a) + SplitPipeline(b)
    decreases |a|
  {
    hide TrimSpace, SplitPipeline;
    var s := a + ("|" + b);
    if '|' in a {
      BarFound(a);
      var i := Index(a, "|");
      hide Index;
      SplitAtFirst(a, i);
      assert s[..i] == a[..i] && s[i + 1..] == a[i + 1..] + ("|" + b);
      SplitAtFirst(s, i);
      SplitAtBar(a[i + 1..], b);
      AppendCons(TrimSpace(a[..i]), SplitPipeline(a[i + 1..]), SplitPipeline(b));
    } else {
      assert s[..|a|] == a && s[|a| + 1..] == b;
      SplitAtFirst(s, |a|);
      NoBar(a);
    }
  }

  lemma AppendCons<T>(x: T, a: seq<T>, b: seq<T>)
    ensures [x] + (a + b) == [x] + a + b
  {
  }

  lemma BarFound(a: string)
    requires '|' in a
    ensures var i := Index(a, "|"); 0 <= i < |a| && a[i] == '|' && '|' !in a[..i]
  {
    FirstBar(a, 0);
    var i := Index(a, "|");
    assert a[i..i + 1] == [a[i]];
    forall k | 0 <= k < i ensures a[k] != '|' {
      assert !OccursAt(a, "|", k);
      assert a[k..k + 1] == [a[k]];
    }
  }

  lemma NoBar(s: string)
    ensures '|' !in s ==> SplitPipeline(s) == [TrimSpace(s)]
    ensures '|' in s ==> |SplitPipeline(s)| >= 2
  {
    hide TrimSpace;
    FirstBar(s, 0);
  }

  /** A blank in front changes nothing. */
  lemma BlankBefore(s: string)
    ensures SplitPipeline(" " + s) == SplitPipeline(s)
  {
    hide TrimSpace;
    var t := " " + s;
    FirstBar(t, 0);
    FirstBar(s, 0);
    TrimBlank(s);
    if '|' in s {
      BarFound(s);
      var i := Index(s, "|");
      assert t[1 + i] == '|' && t[..1 + i] == " " + s[..i] && t[1 + i + 1..] == s[i + 1..];
      FirstBar(t, 1 + i);
      TrimBlank(s[..i]);
    }
  }

  lemma TrimBlank(s: string)
    ensures TrimSpace(" " + s) == TrimSpace(s)
  {
    assert (" " + s)[1..] == s;
  }

  /** A query of tight stages is cut into those stages exactly when none of them has a bar, in quotes or not. */
  lemma {:induction false} PipelineSplits(stages: seq<string>)
    requires stages != [] && forall i | 0 <= i < |stages| :: IsTight(stages[i])
    ensures |SplitPipeline(PipelineText(stages))| >= |stages|
    ensures SplitPipeline(PipelineText(stages)) == stages <==> forall i | 0 <= i < |stages| :: '|' !in stages[i]
    ensures (exists i | 0 <= i < |stages| :: '|' in stages[i]) ==> |SplitPipeline(PipelineText(stages))| > |stages|
    decreases |stages|
  {
    hide SplitPipeline, TrimSpace, IsTight;
    var first := stages[0];
    TrimTight(first);
    if |stages| == 1 {
      NoBar(first);
    } else {
      var rest := stages[1..];
      PipelineSplits(rest);
      assert first + (" | " + PipelineText(rest)) == (first + " ") + ("|" + (" " + PipelineText(rest)));
      SplitAtBar(first + " ", " " + PipelineText(rest));
      BlankBefore(PipelineText(rest));
      NoBar(first + " ");
      assert '|' in first + " " <==> '|' in first;
      assert (exists i | 0 <= i < |stages| :: '|' in stages[i]) <==>
             '|' in first || exists i | 0 <= i < |rest| :: '|' in rest[i] by { FirstOrRest(stages); }
      assert stages == [first] + rest;
    }
  }

  lemma FirstOrRest(stages: seq<string>)
    requires stages != []
    ensures (exists i | 0 <= i < |stages| :: '|' in stages[i]) <==>
            '|' in stages[0] || exists i | 0 <= i < |stages[1..]| :: '|' in stages[1..][i]
  {
    if i :| 0 <= i < |stages| && '|' in stages[i] {
      assert i > 0 ==> stages[1..][i - 1] == stages[i];
    }
    if i :| 0 <= i < |stages[1..]| && '|' in stages[1..][i] {
      assert stages[i + 1] == stages[1..][i];
    }
  }
}
