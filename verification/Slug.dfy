/** The slug function of naming expressions (internal/expression/compiler.go:196-212). */
module Slugs {
  predicate Alnum(c: char) {
    'a' <= c <= 'z' || 'A' <= c <= 'Z' || '0' <= c <= '9'
  }

  /** The length of the run of letters and digits a string starts with. */
  function RunLength(s: string): (n: nat)
    ensures n <= |s|
    ensures forall i | 0 <= i < n :: Alnum(s[i])
    ensures n < |s| ==> !Alnum(s[n])
  {
    if s == "" || !Alnum(s[0]) then 0 else 1 + RunLength(s[1..])
  }

  /** The maximal runs of ASCII letters and digits, in order. */
  function Runs(s: string): seq<string>
    decreases |s|
  {
    if s == "" then []
    else if !Alnum(s[0]) then Runs(s[1..])
    else [s[..RunLength(s)]] + Runs(s[RunLength(s)..])
  }

  function Hyphenated(runs: seq<string>): string {
    if runs == [] then "" else if |runs| == 1 then runs[0] else runs[0] + "-" + Hyphenated(runs[1..])
  }

  function SlugOf(s: string): string {
    Hyphenated(Runs(s))
  }

  predicate EndsInRun(s: string) {
    s != "" && Alnum(s[|s| - 1])
  }

  /** What one more character does to the runs. */
  function Extended(runs: seq<string>, inRun: bool, c: char): seq<string>
    requires inRun ==> runs != []
  {
    if !Alnum(c) then runs
    else if inRun then runs[..|runs| - 1] + [runs[|runs| - 1] + [c]]
    else runs + [[c]]
  }

  lemma {:induction false} RunLengthAppend(s: string, c: char)
    ensures RunLength(s + [c]) == if RunLength(s) == |s| && Alnum(c) then |s| + 1 else RunLength(s)
  {
    if s != "" && Alnum(s[0]) {
      assert (s + [c])[1..] == s[1..] + [c];
      RunLengthAppend(s[1..], c);
    }
  }

  lemma {:induction false} RunsNonEmpty(s: string)
    ensures EndsInRun(s) ==> Runs(s) != []
    ensures forall r | r in Runs(s) :: r != "" && forall i | 0 <= i < |r| :: Alnum(r[i])
    decreases |s|
  {
    if s != "" {
      if !Alnum(s[0]) {
        RunsNonEmpty(s[1..]);
      } else {
        RunsNonEmpty(s[RunLength(s)..]);
      }
    }
  }

  lemma OneRun(s: string)
    requires s != "" && RunLength(s) == |s|
    ensures Runs(s) == [s]
  {
    assert s[..|s|] == s && s[|s|..] == "";
  }

  lemma RunsOfOne(c: char)
    ensures Runs("" + [c]) == if Alnum(c) then [[c]] else []
  {
    assert "" + [c] == [c] && [c][1..] == "";
    if Alnum(c) {
      OneRun([c]);
    }
  }

  lemma RunsAfterRun(s: string, c: char)
    requires s != "" && RunLength(s) == |s|
    ensures Runs(s + [c]) == if Alnum(c) then [s + [c]] else [s]
  {
    RunLengthAppend(s, c);
    if Alnum(c) {
      OneRun(s + [c]);
    } else {
      var t := s + [c];
      RunsOfOne(c);
      assert t[..|s|] == s && t[|s|..] == "" + [c];
      assert Runs(t) == [s] + Runs("" + [c]);
    }
  }

  lemma SliceAppend(s: string, c: char, n: nat)
    requires n <= |s|
    ensures (s + [c])[..n] == s[..n] && (s + [c])[n..] == s[n..] + [c]
  {
  }

  lemma SplitRuns(s: string, c: char)
    requires s != "" && Alnum(s[0]) && RunLength(s) < |s| && RunLength(s + [c]) == RunLength(s)
    ensures Runs(s + [c]) == [s[..RunLength(s)]] + Runs(s[RunLength(s)..] + [c])
  {
    SliceAppend(s, c, RunLength(s));
  }

  lemma ExtendedAfter(first: string, runs: seq<string>, inRun: bool, c: char)
    requires inRun ==> runs != []
    ensures Extended([first] + runs, inRun, c) == [first] + Extended(runs, inRun, c)
  {
    if inRun {
      assert ([first] + runs)[..|runs|] == [first] + runs[..|runs| - 1];
    }
  }

  lemma {:induction false} RunsAppend(s: string, c: char)
    ensures EndsInRun(s) ==> Runs(s) != []
    ensures Runs(s + [c]) == Extended(Runs(s), EndsInRun(s), c)
    decreases |s|
  {
    RunsNonEmpty(s);
    if s == "" {
      RunsOfOne(c);
    } else if !Alnum(s[0]) {
      assert (s + [c])[1..] == s[1..] + [c];
      RunsAppend(s[1..], c);
    } else if RunLength(s) < |s| {
      RunLengthAppend(s, c);
      SplitRuns(s, c);
      RunsAppend(s[RunLength(s)..], c);
      ExtendedAfter(s[..RunLength(s)], Runs(s[RunLength(s)..]), EndsInRun(s), c);
    } else {
      OneRun(s);
      RunsAfterRun(s, c);
    }
  }

  lemma {:induction false} HyphenatedLast(runs: seq<string>, last: string)
    ensures Hyphenated(runs + [last]) == if runs == [] then last else Hyphenated(runs) + "-" + last
  {
    if |runs| > 1 {
      assert (runs + [last])[1..] == runs[1..] + [last];
      HyphenatedLast(runs[1..], last);
    } else if |runs| == 1 {
      assert (runs + [last])[1..] == [last];
    }
  }

  lemma {:induction false} HyphenatedGrow(runs: seq<string>, c: char)
    requires runs != []
    ensures Hyphenated(runs[..|runs| - 1] + [runs[|runs| - 1] + [c]]) == Hyphenated(runs) + [c]
  {
    var front, last := runs[..|runs| - 1], runs[|runs| - 1];
    assert runs == front + [last];
    HyphenatedLast(front, last);
    HyphenatedLast(front, last + [c]);
  }

  /** One pass of the loop keeps the result equal to the hyphenated runs. */
  lemma SlugAppend(s: string, c: char)
    ensures SlugOf(s + [c]) ==
              if !Alnum(c) then SlugOf(s)
              else if EndsInRun(s) || SlugOf(s) == "" then SlugOf(s) + [c]
              else SlugOf(s) + "-" + [c]
  {
    RunsAppend(s, c);
    RunsNonEmpty(s);
    if Alnum(c) {
      if EndsInRun(s) {
        HyphenatedGrow(Runs(s), c);
      } else {
        HyphenatedLast(Runs(s), [c]);
      }
    }
    EmptyOnlyIfNoRuns(Runs(s));
  }

  lemma EmptyOnlyIfNoRuns(runs: seq<string>)
    requires forall r | r in runs :: r != ""
    ensures Hyphenated(runs) == "" <==> runs == []
  {
    assert runs != [] ==> runs[0] in runs;
  }

  /** The loop over the trimmed value. */
  method Slug(trimmed: string) returns (result: string)
    ensures result == SlugOf(trimmed)
  {
    result := "";
    var separator := false;
    for k := 0 to |trimmed|
      invariant result == SlugOf(trimmed[..k])
      invariant separator <==> result != "" && !EndsInRun(trimmed[..k])
    {
      var c := trimmed[k];
      assert trimmed[..k + 1] == trimmed[..k] + [c];
      SlugAppend(trimmed[..k], c);
      if Alnum(c) {
        if separator && |result| > 0 {
          result := result + "-";
        }
        result := result + [c];
        separator := false;
      } else {
        separator := |result| > 0;
      }
    }
    assert trimmed[..|trimmed|] == trimmed;
  }

  // What the result looks like.

  /** The ASCII codes of digits, upper-case and lower-case letters. */
  predicate Plain(c: char) {
    48 <= c as int <= 57 || 65 <= c as int <= 90 || 97 <= c as int <= 122
  }

  /** Letters, digits and single hyphens strictly inside. */
  predicate Normal(s: string) {
    && (forall i | 0 <= i < |s| :: Plain(s[i]) || s[i] == '-')
    && (s != "" ==> s[0] != '-' && s[|s| - 1] != '-')
    && (forall i | 0 <= i < |s| - 1 :: s[i] == '-' ==> s[i + 1] != '-')
  }

  lemma {:induction false} HyphenatedIsNormal(runs: seq<string>)
    requires forall r | r in runs :: r != "" && forall i | 0 <= i < |r| :: Alnum(r[i])
    ensures Normal(Hyphenated(runs))
  {
    if |runs| > 1 {
      var rest := Hyphenated(runs[1..]);
      HyphenatedIsNormal(runs[1..]);
      EmptyOnlyIfNoRuns(runs[1..]);
      NormalJoin(runs[0], rest);
    } else if |runs| == 1 {
      assert runs[0] in runs;
    }
  }

  lemma NormalJoin(run: string, rest: string)
    requires run != "" && (forall i | 0 <= i < |run| :: Alnum(run[i])) && Normal(rest) && rest != ""
    ensures Normal(run + "-" + rest)
  {
    var s := run + "-" + rest;
    forall i | 0 <= i < |s| - 1 && s[i] == '-' ensures s[i + 1] != '-' {
      if i > |run| {
        assert s[i] == rest[i - |run| - 1] && s[i + 1] == rest[i - |run|];
      }
    }
  }

  lemma {:induction false} NormalIsKept(s: string)
    requires Normal(s)
    ensures SlugOf(s) == s
    decreases |s|
  {
    if s != "" {
      var n := RunLength(s);
      if n < |s| {
        var rest := s[n + 1..];
        NormalTail(s, n);
        NormalIsKept(rest);
        assert s[n..][1..] == rest;
        assert Runs(s) == [s[..n]] + Runs(rest);
        assert s == s[..n] + "-" + rest;
      } else {
        OneRun(s);
      }
    }
  }

  lemma NormalTail(s: string, n: nat)
    requires Normal(s) && n == RunLength(s) < |s|
    ensures s[n] == '-' && Normal(s[n + 1..]) && s[n + 1..] != ""
  {
    var rest := s[n + 1..];
    forall i | 0 <= i < |rest| - 1 && rest[i] == '-' ensures rest[i + 1] != '-' {
      assert s[n + 1 + i] == rest[i] && s[n + 1 + i + 1] == rest[i + 1];
    }
  }

  /** Every slug is in normal form, and the strings in normal form are exactly those slug leaves alone. */
  lemma SlugNormalForm(s: string)
    ensures Normal(SlugOf(s))
    ensures SlugOf(s) == s <==> Normal(s)
  {
    RunsNonEmpty(s);
    HyphenatedIsNormal(Runs(s));
    if Normal(s) {
      NormalIsKept(s);
    }
  }

  lemma SlugIdempotent(s: string)
    ensures SlugOf(SlugOf(s)) == SlugOf(s)
  {
    SlugNormalForm(s);
    SlugNormalForm(SlugOf(s));
  }

  /** The runs of a slug are the runs it was made of. */
  lemma {:induction false} SlugKeepsRuns(runs: seq<string>)
    requires forall r | r in runs :: r != "" && forall i | 0 <= i < |r| :: Alnum(r[i])
    ensures Runs(Hyphenated(runs)) == runs
  {
    if runs != [] {
      var s := Hyphenated(runs);
      FirstRun(runs[0], s[|runs[0]|..]);
      assert s == runs[0] + s[|runs[0]|..];
      if |runs| > 1 {
        SlugKeepsRuns(runs[1..]);
        assert s[|runs[0]|..][1..] == Hyphenated(runs[1..]);
      }
    }
  }

  lemma {:induction false} FirstRun(run: string, rest: string)
    requires forall i | 0 <= i < |run| :: Alnum(run[i])
    requires rest == "" || !Alnum(rest[0])
    ensures RunLength(run + rest) == |run|
  {
    if run == "" {
      assert run + rest == rest;
    } else {
      assert (run + rest)[1..] == run[1..] + rest;
      FirstRun(run[1..], rest);
    }
  }

  /** Whatever is trimmed from either end, as long as it is neither letters nor digits, does not matter. */
  lemma {:induction false} TrimmingDoesNotMatter(before: string, value: string, after: string)
    requires (forall i | 0 <= i < |before| :: !Alnum(before[i])) && (forall i | 0 <= i < |after| :: !Alnum(after[i]))
    ensures SlugOf(before + value + after) == SlugOf(value)
    decreases |before| + |after|
  {
    if after != "" {
      var front := before + value + after[..|after| - 1];
      assert before + value + after == front + [after[|after| - 1]];
      SlugAppend(front, after[|after| - 1]);
      TrimmingDoesNotMatter(before, value, after[..|after| - 1]);
    } else if before != "" {
      assert (before + value + after)[1..] == before[1..] + value + after;
      TrimmingDoesNotMatter(before[1..], value, after);
    } else {
      assert before + value + after == value;
    }
  }
}
