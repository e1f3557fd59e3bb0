/**
 * Prompt text helpers of the feedback class hierarchy
 * (trulens_eval/trulens_eval/feedback/v2/feedback.py): indenting text with
 * `make_retab`, the criteria table with its yes/no instruction removed, and
 * reading a score and its reasons out of a chain-of-thought answer.
 */
module FeedbackText {
  import opened Wrappers
  import opened Text

  // ---------------------------------------------------------------------
  // make_retab

  /** `make_retab(tab)(s)`: split `s` into lines and join them back with `"\n" + tab`, after a leading `tab`. */
  function Retab(tab: string, s: string): string
  {
    tab + Join("\n" + tab, Split(s, '\n'))
  }

  /** An independent reference: every newline of `s` is followed by `tab`. */
  function IndentAfterNewlines(tab: string, s: string): string
  {
    if |s| == 0 then ""
    else (if s[0] == '\n' then "\n" + tab else [s[0]]) + IndentAfterNewlines(tab, s[1..])
  }

  lemma JoinPrefixHead(sep: string, a: string, parts: seq<string>)
    requires |parts| >= 1
    ensures Join(sep, [a + parts[0]] + parts[1..]) == a + Join(sep, parts)
  {
    var ps := [a + parts[0]] + parts[1..];
    assert ps[1..] == parts[1..];
  }

  /** The split/join of the source equals replacing each newline by newline-plus-tab. */
  lemma {:induction false} JoinSplitIsIndent(tab: string, s: string)
    ensures Join("\n" + tab, Split(s, '\n')) == IndentAfterNewlines(tab, s)
  {
    if |s| > 0 {
      JoinSplitIsIndent(tab, s[1..]);
      var rest := Split(s[1..], '\n');
      if s[0] == '\n' {
        assert Split(s, '\n') == [""] + rest;
        JoinEmptyHead("\n" + tab, rest);
      } else {
        assert Split(s, '\n') == [[s[0]] + rest[0]] + rest[1..];
        JoinPrefixHead("\n" + tab, [s[0]], rest);
      }
    }
  }

  lemma JoinEmptyHead(sep: string, parts: seq<string>)
    requires |parts| >= 1
    ensures Join(sep, [""] + parts) == sep + Join(sep, parts)
  {
    assert ([""] + parts)[1..] == parts;
    assert "" + sep == sep;
  }

  /** `make_retab(tab)(s)` is `tab` followed by `s` with every `"\n"` replaced by `"\n" + tab`. */
  lemma RetabIndentsEveryLine(tab: string, s: string)
    ensures Retab(tab, s) == tab + IndentAfterNewlines(tab, s)
    ensures Retab(tab, s)[..|tab|] == tab
    ensures Retab(tab, "") == tab
  {
    JoinSplitIsIndent(tab, s);
  }

  /** Prefixing every line with `tab` before joining with newlines. */
  function PrefixAll(tab: string, lines: seq<string>): (r: seq<string>)
    ensures |r| == |lines|
    ensures forall i :: 0 <= i < |lines| ==> r[i] == tab + lines[i]
  {
    if |lines| == 0 then [] else [tab + lines[0]] + PrefixAll(tab, lines[1..])
  }

  lemma {:induction false} RetabIsJoinOfPrefixed(tab: string, lines: seq<string>)
    requires |lines| >= 1
    ensures tab + Join("\n" + tab, lines) == Join("\n", PrefixAll(tab, lines))
  {
    if |lines| > 1 {
      RetabIsJoinOfPrefixed(tab, lines[1..]);
      assert PrefixAll(tab, lines)[1..] == PrefixAll(tab, lines[1..]);
    }
  }

  lemma {:induction false} SplitAroundSeparator(a: string, b: string, c: char)
    requires c !in a
    ensures Split(a + [c] + b, c) == [a] + Split(b, c)
  {
    if |a| == 0 {
      assert (a + [c] + b)[1..] == b;
    } else {
      assert (a + [c] + b)[1..] == a[1..] + [c] + b;
      SplitAroundSeparator(a[1..], b, c);
      assert [a[0]] + a[1..] == a;
    }
  }

  lemma {:induction false} SplitWithoutSeparator(a: string, c: char)
    requires c !in a
    ensures Split(a, c) == [a]
  {
    if |a| > 0 {
      SplitWithoutSeparator(a[1..], c);
      assert [a[0]] + a[1..] == a;
    }
  }

  /** Splitting a join of separator-free pieces gives back the pieces. */
  lemma {:induction false} SplitJoin(parts: seq<string>, c: char)
    requires |parts| >= 1
    requires forall i :: 0 <= i < |parts| ==> c !in parts[i]
    ensures Split(Join([c], parts), c) == parts
  {
    if |parts| == 1 {
      SplitWithoutSeparator(parts[0], c);
    } else {
      SplitJoin(parts[1..], c);
      SplitAroundSeparator(parts[0], Join([c], parts[1..]), c);
      assert parts == [parts[0]] + parts[1..];
    }
  }

  /**
   * `retab` keeps the number of lines, and each output line is the input
   * line behind `tab`, so stripping `tab` gives the input lines back (for a
   * tab without newlines, as every tab of the source is).
   */
  lemma RetabLines(tab: string, s: string)
    requires '\n' !in tab
    ensures |Split(Retab(tab, s), '\n')| == |Split(s, '\n')|
    ensures forall i :: 0 <= i < |Split(s, '\n')| ==>
      Split(Retab(tab, s), '\n')[i] == tab + Split(s, '\n')[i] &&
      Split(Retab(tab, s), '\n')[i][|tab|..] == Split(s, '\n')[i]
  {
    var lines := Split(s, '\n');
    RetabIsJoinOfPrefixed(tab, lines);
    var pre := PrefixAll(tab, lines);
    forall i | 0 <= i < |pre| ensures '\n' !in pre[i] {
      assert pre[i] == tab + lines[i];
    }
    SplitJoin(pre, '\n');
  }

  // ---------------------------------------------------------------------
  // supported_criteria

  /** The sentence removed from every criterion text. */
  const YesNoInstruction: string := " If so, response Y. If not, respond N."

  /** `s.replace(pat, '')`: remove the occurrences of `pat` found scanning left to right. */
  function RemoveAll(s: string, pat: string): string
    requires |pat| > 0
    decreases |s|
  {
    if |s| == 0 then ""
    else if OccursAt(s, pat, 0) then RemoveAll(s[|pat|..], pat)
    else [s[0]] + RemoveAll(s[1..], pat)
  }

  lemma OccursShift(s: string, pat: string, i: nat)
    requires |s| > 0
    ensures OccursAt(s[1..], pat, i) <==> OccursAt(s, pat, i + 1)
  {
    if i + 1 + |pat| <= |s| {
      assert s[1..][i..i + |pat|] == s[i + 1..i + 1 + |pat|];
    }
  }

  /** A string without the pattern is left as it is. */
  lemma {:induction false} RemoveAllAbsent(s: string, pat: string)
    requires |pat| > 0
    requires !Contains(s, pat)
    ensures RemoveAll(s, pat) == s
  {
    if |s| > 0 {
      assert !OccursAt(s, pat, 0);
      forall i: nat ensures !OccursAt(s[1..], pat, i) {
        OccursShift(s, pat, i);
      }
      RemoveAllAbsent(s[1..], pat);
      assert [s[0]] + s[1..] == s;
    }
  }

  /** A text ending in the pattern, with no earlier occurrence, loses exactly that ending. */
  lemma {:induction false} RemoveAllTrailing(x: string, pat: string)
    requires |pat| > 0
    requires forall i: nat :: i < |x| ==> !OccursAt(x + pat, pat, i)
    ensures RemoveAll(x + pat, pat) == x
  {
    if |x| == 0 {
      assert OccursAt(x + pat, pat, 0);
      assert (x + pat)[|pat|..] == "";
    } else {
      var s := x + pat;
      assert !OccursAt(s, pat, 0);
      assert s[1..] == x[1..] + pat;
      forall i: nat | i < |x[1..]| ensures !OccursAt(x[1..] + pat, pat, i) {
        OccursShift(s, pat, i);
      }
      RemoveAllTrailing(x[1..], pat);
      assert [x[0]] + x[1..] == x;
    }
  }

  /** A value of the criteria table: a description, or something else that is kept as it is. */
  datatype Criterion = Description(text: string) | NonString(other: int)

  /** `supported_criteria`: the same keys, string values without `YesNoInstruction`. */
  function SupportedCriteria<K>(source: map<K, Criterion>): (r: map<K, Criterion>)
    ensures r.Keys == source.Keys
    ensures forall k :: k in source && source[k].NonString? ==> r[k] == source[k]
    ensures forall k :: k in source && source[k].Description? ==>
      r[k] == Description(RemoveAll(source[k].text, YesNoInstruction))
  {
    map k | k in source ::
      match source[k]
      case Description(t) => Description(RemoveAll(t, YesNoInstruction))
      case NonString(_) => source[k]
  }

  /** A criterion phrased as a question followed by the yes/no instruction keeps only its question. */
  lemma SupportedCriteriaStripsInstruction<K>(source: map<K, Criterion>, k: K, question: string)
    requires k in source && source[k] == Description(question + YesNoInstruction)
    requires forall i: nat :: i < |question| ==> !OccursAt(question + YesNoInstruction, YesNoInstruction, i)
    ensures SupportedCriteria(source)[k] == Description(question)
  {
    RemoveAllTrailing(question, YesNoInstruction);
  }

  /** Criteria without the instruction are unchanged. */
  lemma SupportedCriteriaKeepsOthers<K>(source: map<K, Criterion>, k: K)
    requires k in source
    requires source[k].Description? ==> !Contains(source[k].text, YesNoInstruction)
    ensures SupportedCriteria(source)[k] == source[k]
  {
    if source[k].Description? {
      RemoveAllAbsent(source[k].text, YesNoInstruction);
    }
  }

  // ---------------------------------------------------------------------
  // extract_cot_explanation_of_response

  /** What the extraction returns: `(score, {"reason": response})` or a bare score. */
  datatype CotOutput = ScoreWithReasons(score: real, reasons: map<string, string>) | Score(score: real)

  datatype ArithmeticError = ZeroDivisionError

  /** The last line that contains `"Score"`, if any. */
  function LastScoreLine(lines: seq<string>): (r: Option<string>)
    ensures r.Some? ==>
      exists k :: 0 <= k < |lines| && lines[k] == r.value && Contains(lines[k], "Score") &&
        forall j :: k < j < |lines| ==> !Contains(lines[j], "Score")
    ensures r.None? <==> forall j :: 0 <= j < |lines| ==> !Contains(lines[j], "Score")
  {
    if |lines| == 0 then None
    else if Contains(lines[|lines| - 1], "Score") then Some(lines[|lines| - 1])
    else
      var r := LastScoreLine(lines[..|lines| - 1]);
      LastScoreLineShift(lines, r);
      r
  }

  /** The last line with `"Score"` before a last line without one is the last with it overall. */
  lemma LastScoreLineShift(lines: seq<string>, r: Option<string>)
    requires |lines| > 0 && !Contains(lines[|lines| - 1], "Score")
    requires var init := lines[..|lines| - 1];
      && (r.Some? ==>
        exists k :: 0 <= k < |init| && init[k] == r.value && Contains(init[k], "Score") &&
          forall j :: k < j < |init| ==> !Contains(init[j], "Score"))
      && (r.None? <==> forall j :: 0 <= j < |init| ==> !Contains(init[j], "Score"))
    ensures r.Some? ==>
      exists k :: 0 <= k < |lines| && lines[k] == r.value && Contains(lines[k], "Score") &&
        forall j :: k < j < |lines| ==> !Contains(lines[j], "Score")
    ensures r.None? <==> forall j :: 0 <= j < |lines| ==> !Contains(lines[j], "Score")
  {
    var init := lines[..|lines| - 1];
    assert forall j :: 0 <= j < |init| ==> init[j] == lines[j];
    if r.Some? {
      var k :| 0 <= k < |init| && init[k] == r.value && Contains(init[k], "Score") &&
          forall j :: k < j < |init| ==> !Contains(init[j], "Score");
      assert lines[k] == r.value && Contains(lines[k], "Score");
      assert forall j :: k < j < |lines| ==> !Contains(lines[j], "Score");
    } else {
      assert forall j :: 0 <= j < |lines| ==> !Contains(lines[j], "Score");
    }
  }

  /** One more line: it is the new last score line exactly when it contains `"Score"`. */
  lemma LastScoreLineStep(lines: seq<string>, i: nat)
    requires i < |lines|
    ensures LastScoreLine(lines[..i + 1]) ==
      if Contains(lines[i], "Score") then Some(lines[i]) else LastScoreLine(lines[..i])
  {
    assert lines[..i + 1][..i] == lines[..i];
    assert lines[..i + 1][i] == lines[i];
  }

  /**
   * `extract_cot_explanation_of_response(response, normalize)` of the
   * explained feedback class, with `re_1_10_rating` as the uninterpreted
   * `rating`. The division raises `ZeroDivisionError` for `normalize == 0`,
   * which the chain-of-thought branch reaches only at a line with `"Score"`.
   */
  method ExtractCotExplanationOfResponse(response: string, normalize: real, rating: string -> real)
    returns (r: Result<CotOutput, ArithmeticError>)
    ensures Contains(response, "Supporting Evidence") ==>
      var last := LastScoreLine(Split(response, '\n'));
      if last.Some? && normalize == 0.0 then r == Failure(ZeroDivisionError)
      else r == Success(ScoreWithReasons(
        if last.Some? then rating(last.value) / normalize else 0.0,
        map["reason" := response]))
    ensures !Contains(response, "Supporting Evidence") ==>
      if normalize == 0.0 then r == Failure(ZeroDivisionError)
      else r == Success(Score(rating(response) / normalize))
  {
    if Contains(response, "Supporting Evidence") {
      var score := 0.0;
      var lines := Split(response, '\n');
      for i := 0 to |lines|
        invariant LastScoreLine(lines[..i]).Some? ==> normalize != 0.0
        invariant score == if LastScoreLine(lines[..i]).Some? then rating(LastScoreLine(lines[..i]).value) / normalize else 0.0
      {
        LastScoreLineStep(lines, i);
        if Contains(lines[i], "Score") {
          if normalize == 0.0 {
            assert LastScoreLine(lines).Some?;
            return Failure(ZeroDivisionError);
          }
          score := rating(lines[i]) / normalize;
        }
      }
      assert lines[..|lines|] == lines;
      return Success(ScoreWithReasons(score, map["reason" := response]));
    } else {
      if normalize == 0.0 {
        return Failure(ZeroDivisionError);
      }
      return Success(Score(rating(response) / normalize));
    }
  }
}
