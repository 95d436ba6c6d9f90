/** The dashboard's derived statistics (src/components/Dashboard.tsx): read
    only functions of the newest-first list of results. Averages are exact
    reals; the `toFixed` display formatting is not modelled. */
module Dashboard {
  import opened Stats
  import opened AnalysisTypes
  import opened Analyzer

  /** `totalVideos`: how many results there are. */
  function TotalVideos(results: seq<AnalysisResult>): (n: nat)
    ensures n == |results|
    ensures n == 0 <==> results == []
  {
    |results|
  }

  /** The overall scores of the results, in list order. */
  function Scores(results: seq<AnalysisResult>): (s: seq<int>)
    ensures |s| == |results|
    ensures forall i :: 0 <= i < |s| ==> s[i] == results[i].overallScore
  {
    seq(|results|, i requires 0 <= i < |results| => results[i].overallScore)
  }

  /** `averageScore`: 0 for an empty list, else the sum of the scores
      divided by their count. */
  function AverageScore(results: seq<AnalysisResult>): (avg: real)
    ensures |results| == 0 ==> avg == 0.0
    ensures |results| > 0 ==> avg * |results| as real == Sum(Scores(results)) as real
  {
    if |results| > 0 then
      var total, n := Sum(Scores(results)), |results|;
      DivideTimes(total, n);
      total as real / n as real
    else 0.0
  }

  /** The average lies between the lowest and the highest score. */
  lemma AverageScoreBetween(results: seq<AnalysisResult>)
    requires |results| > 0
    ensures MinOf(Scores(results)) as real <= AverageScore(results) <= MaxOf(Scores(results)) as real
  {
    var scores := Scores(results);
    SumBetween(scores, MinOf(scores), MaxOf(scores));
    DivideBounds(Sum(scores), |results|, MinOf(scores), MaxOf(scores));
  }

  /** When every listed result is well formed, the average lies in [0, 99]. */
  lemma AverageScoreInRange(results: seq<AnalysisResult>)
    requires forall i :: 0 <= i < |results| ==> IsWellFormed(results[i])
    ensures 0.0 <= AverageScore(results) <= 99.0
  {
    if |results| > 0 {
      AverageScoreBetween(results);
      var s := Scores(results);
      var lo :| 0 <= lo < |s| && s[lo] == MinOf(s);
      var hi :| 0 <= hi < |s| && s[hi] == MaxOf(s);
      assert IsWellFormed(results[lo]) && IsWellFormed(results[hi]);
    }
  }

  /** `results.filter(r => r.overallScore >= 80)`. */
  function HighQualityResults(results: seq<AnalysisResult>): (hs: seq<AnalysisResult>)
    ensures |hs| <= |results|
    ensures forall i :: 0 <= i < |hs| ==> hs[i].overallScore >= 80
    ensures |hs| == 0 <==> forall i :: 0 <= i < |results| ==> results[i].overallScore < 80
    ensures |hs| == |results| <==> forall i :: 0 <= i < |results| ==> results[i].overallScore >= 80
  {
    if results == [] then []
    else
      var rest := HighQualityResults(results[1..]);
      assert forall i :: 1 <= i < |results| ==> results[i] == results[1..][i - 1];
      if results[0].overallScore >= 80 then [results[0]] + rest else rest
  }

  /** The high-quality list holds exactly the listed results scoring at
      least 80. */
  lemma {:induction false} HighQualityMembers(results: seq<AnalysisResult>, r: AnalysisResult)
    ensures r in HighQualityResults(results) <==> r in results && r.overallScore >= 80
  {
    if results != [] {
      HighQualityMembers(results[1..], r);
      assert results == [results[0]] + results[1..];
    }
  }

  /** `highQualityVideos`: the number of results scoring at least 80; never
      more than `totalVideos`. */
  function HighQualityVideos(results: seq<AnalysisResult>): (n: nat)
    ensures n <= TotalVideos(results)
    ensures n == 0 <==> forall i :: 0 <= i < |results| ==> results[i].overallScore < 80
    ensures n == |results| <==> forall i :: 0 <= i < |results| ==> results[i].overallScore >= 80
  {
    |HighQualityResults(results)|
  }

  /** Counting distributes over concatenation: a newly prepended result adds
      one to the count exactly when it scores at least 80. */
  lemma {:induction false} HighQualityAppend(a: seq<AnalysisResult>, b: seq<AnalysisResult>)
    ensures HighQualityVideos(a + b) == HighQualityVideos(a) + HighQualityVideos(b)
  {
    if a == [] {
      assert a + b == b;
    } else {
      assert (a + b)[0] == a[0] && (a + b)[1..] == a[1..] + b;
      HighQualityAppend(a[1..], b);
    }
  }

  /** `recentResults`: `results.slice(0, 5)`, the first min(5, n) results in
      the same order. */
  function RecentResults(results: seq<AnalysisResult>): (recent: seq<AnalysisResult>)
    ensures |recent| == if |results| < 5 then |results| else 5
    ensures forall i :: 0 <= i < |recent| ==> recent[i] == results[i]
  {
    if |results| <= 5 then results else results[..5]
  }

  /** The "Quality Rate" card: `highQualityVideos / totalVideos * 100`, or 0
      for an empty list. It lies in [0, 100] and is 100 exactly when the list
      is non-empty and every result scores at least 80. */
  function QualityRate(results: seq<AnalysisResult>): (rate: real)
    ensures 0.0 <= rate <= 100.0
    ensures |results| == 0 ==> rate == 0.0
    ensures |results| > 0 ==> rate * |results| as real == 100.0 * HighQualityVideos(results) as real
    ensures rate == 0.0 <==> forall i :: 0 <= i < |results| ==> results[i].overallScore < 80
    ensures rate == 100.0 <==>
      |results| > 0 && forall i :: 0 <= i < |results| ==> results[i].overallScore >= 80
  {
    var total, high := TotalVideos(results), HighQualityVideos(results);
    if total > 0 then
      DivideBounds(high, total, 0, 1);
      RateFacts(high, total);
      (high as real / total as real) * 100.0
    else 0.0
  }

  /** The percentage `high / total * 100` of a count out of a positive total. */
  lemma RateFacts(high: int, total: int)
    requires 0 <= high <= total && total > 0
    ensures (high as real / total as real) * 100.0 * total as real == 100.0 * high as real
    ensures (high as real / total as real) * 100.0 == 0.0 <==> high == 0
    ensures (high as real / total as real) * 100.0 == 100.0 <==> high == total
  {
    var q := high as real / total as real;
    assert q * total as real == high as real;
  }

  /** `getScoreColor`: the text colour of a score's band. */
  function ScoreColor(score: int): (c: string)
    ensures c == "text-emerald-600" <==> score >= 80
    ensures c == "text-amber-600" <==> 60 <= score < 80
    ensures c == "text-red-600" <==> score < 60
  {
    if score >= 80 then "text-emerald-600"
    else if score >= 60 then "text-amber-600"
    else "text-red-600"
  }

  /** `getScoreBg`: the background colour of a score's band. */
  function ScoreBg(score: int): (c: string)
    ensures c == "bg-emerald-100" <==> score >= 80
    ensures c == "bg-amber-100" <==> 60 <= score < 80
    ensures c == "bg-red-100" <==> score < 60
  {
    if score >= 80 then "bg-emerald-100"
    else if score >= 60 then "bg-amber-100"
    else "bg-red-100"
  }

  /** The two colourings split scores into the same three bands: two scores
      get the same text colour exactly when they get the same background. */
  lemma ColorAndBgAgree(s: int, t: int)
    ensures ScoreColor(s) == ScoreColor(t) <==> ScoreBg(s) == ScoreBg(t)
  {
  }

  /** `result.subtopics.filter(s => s.status === 'covered')`: only covered
      entries are kept; none are kept exactly when none is covered, and all
      exactly when all are. */
  function CoveredSubtopics(subs: seq<SubtopicAnalysis>): (cs: seq<SubtopicAnalysis>)
    ensures |cs| <= |subs|
    ensures forall i :: 0 <= i < |cs| ==> cs[i].status == Covered
    ensures |cs| == 0 <==> forall i :: 0 <= i < |subs| ==> subs[i].status != Covered
    ensures |cs| == |subs| <==> forall i :: 0 <= i < |subs| ==> subs[i].status == Covered
  {
    if subs == [] then []
    else
      var rest := CoveredSubtopics(subs[1..]);
      assert forall i :: 1 <= i < |subs| ==> subs[i] == subs[1..][i - 1];
      (if subs[0].status == Covered then [subs[0]] else []) + rest
  }

  /** Filtering distributes over concatenation: the covered count of a list
      is the sum of the counts of its parts. */
  lemma {:induction false} CoveredAppend(a: seq<SubtopicAnalysis>, b: seq<SubtopicAnalysis>)
    ensures CoveredSubtopics(a + b) == CoveredSubtopics(a) + CoveredSubtopics(b)
  {
    if a == [] {
      assert a + b == b;
    } else {
      assert (a + b)[0] == a[0] && (a + b)[1..] == a[1..] + b;
      CoveredAppend(a[1..], b);
    }
  }

  /** The "covered/total topics" figure of a listed result: never more than
      the number of subtopics, 0 exactly when none is covered, and the total
      exactly when all are. */
  function CoveredCount(result: AnalysisResult): (n: nat)
    ensures n <= |result.subtopics|
    ensures n == 0 <==> forall i :: 0 <= i < |result.subtopics| ==> result.subtopics[i].status != Covered
    ensures n == |result.subtopics| <==>
      forall i :: 0 <= i < |result.subtopics| ==> result.subtopics[i].status == Covered
  {
    |CoveredSubtopics(result.subtopics)|
  }

  /** In a well-formed result, the covered subtopics are exactly those whose
      coverage is at least 80. */
  lemma {:induction false} CoveredMeansCoverage(subs: seq<SubtopicAnalysis>, s: SubtopicAnalysis)
    requires forall i :: 0 <= i < |subs| ==> IsConsistent(subs[i])
    ensures s in CoveredSubtopics(subs) <==> s in subs && s.coverage >= 80
  {
    if subs != [] {
      CoveredMeansCoverage(subs[1..], s);
      assert subs == [subs[0]] + subs[1..];
      assert IsConsistent(subs[0]);
    }
  }
}
