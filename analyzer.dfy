/** The analyzer form (src/components/VideoAnalyzer.tsx): the editable form
    state, the suggestion table, the submit guard and the fabrication of one
    AnalysisResult. Each `Math.random()` call is an input `u` with
    `0.0 <= u < 1.0`, and the date string is an input, so every derived value
    is a function of the inputs. */
module Analyzer {
  import opened Text
  import opened Stats
  import opened AnalysisTypes
  import opened VideoId

  // ---------------------------------------------------------------------
  // Subtopic suggestions

  /** The fixed table of subject keys and their suggested subtopics, in the
      order `Object.entries` visits them. */
  const SuggestionTable: seq<(string, seq<string>)> := [
    ("machine learning", ["Introduction to ML", "Supervised Learning", "Unsupervised Learning",
                          "Model Evaluation", "Feature Engineering"]),
    ("react", ["JSX Syntax", "Components", "State Management", "Props", "Hooks", "Event Handling"]),
    ("calculus", ["Limits", "Derivatives", "Integration", "Chain Rule", "Applications"]),
    ("physics", ["Newton's Laws", "Energy Conservation", "Momentum", "Wave Properties",
                 "Thermodynamics"]),
    ("chemistry", ["Atomic Structure", "Chemical Bonds", "Reactions", "Stoichiometry",
                   "Periodic Table"])
  ]

  /** Every key is lower-case, so lower-casing the topic alone makes the
      match case-insensitive; every entry suggests at least five subtopics. */
  lemma SuggestionTableShape()
    ensures |SuggestionTable| == 5
    ensures forall i :: 0 <= i < |SuggestionTable| ==>
      IsLowerCase(SuggestionTable[i].0) && |SuggestionTable[i].1| >= 5
  {
  }

  /** The table's key at index `i` occurs in the lower-cased topic. */
  predicate KeyMatches(lowerTopic: string, i: nat)
    requires i < |SuggestionTable|
  {
    Contains(lowerTopic, SuggestionTable[i].0)
  }

  /** `Object.entries(table).find(([key]) => lowerTopic.includes(key))`,
      searching from index `from`: the first matching index, or None. */
  function FindKey(lowerTopic: string, from: nat): (r: Option<nat>)
    requires from <= |SuggestionTable|
    ensures r.Some? ==> from <= r.value < |SuggestionTable| && KeyMatches(lowerTopic, r.value)
    ensures r.Some? ==> forall j :: from <= j < r.value ==> !KeyMatches(lowerTopic, j)
    ensures r.None? ==> forall j :: from <= j < |SuggestionTable| ==> !KeyMatches(lowerTopic, j)
    decreases |SuggestionTable| - from
  {
    if from == |SuggestionTable| then None
    else if KeyMatches(lowerTopic, from) then Some(from)
    else FindKey(lowerTopic, from + 1)
  }

  /** The five template subtopics for a topic that matches no key. */
  function GenericSuggestions(topic: string): (r: seq<string>)
    ensures |r| == 5
    ensures |r[0]| == 16 + |topic| && |r[1]| == 17 + |topic| && |r[2]| == 16 + |topic|
    ensures r[0][..16] == "Introduction to " && r[0][16..] == topic
    ensures r[1][..17] == "Core Concepts of " && r[1][17..] == topic
    ensures r[2][..9] == "Advanced " && r[2][9..9 + |topic|] == topic && r[2][9 + |topic|..] == " Topics"
    ensures r[3] == "Practical Applications" && r[4] == "Examples and Case Studies"
  {
    ["Introduction to " + topic, "Core Concepts of " + topic, "Advanced " + topic + " Topics",
     "Practical Applications", "Examples and Case Studies"]
  }

  /** The list `generateSubtopics` installs for a non-empty topic: the
      suggestions of the first key, in table order, that occurs in the
      lower-cased topic, or else the five template entries. */
  function Suggestions(topic: string): (r: seq<string>)
    ensures |r| >= 5
    ensures forall i :: 0 <= i < |SuggestionTable| && KeyMatches(Lower(topic), i)
                        && (forall j :: 0 <= j < i ==> !KeyMatches(Lower(topic), j))
                        ==> r == SuggestionTable[i].1
    ensures (forall i :: 0 <= i < |SuggestionTable| ==> !KeyMatches(Lower(topic), i))
            ==> r == GenericSuggestions(topic)
  {
    match FindKey(Lower(topic), 0)
    case Some(i) => SuggestionTable[i].1
    case None => GenericSuggestions(topic)
  }

  /** The first key found in the lower-cased "Calculus" is "calculus". */
  lemma CalculusMatchesKey()
    ensures FindKey(Lower("Calculus"), 0) == Some(2)
  {
    var t := Lower("Calculus");
    assert t == "calculus";
    assert !KeyMatches(t, 0);
    assert !KeyMatches(t, 1);
    assert OccursAt(t, "calculus", 0);
  }

  /** "Calculus" installs the five calculus entries, in order. */
  lemma CalculusSuggestions()
    ensures Suggestions("Calculus") == ["Limits", "Derivatives", "Integration", "Chain Rule", "Applications"]
  {
    CalculusMatchesKey();
  }

  /** The first key found in the lower-cased "Reactions" is "react". */
  lemma ReactionsMatchesKey()
    ensures FindKey(Lower("Reactions"), 0) == Some(1)
  {
    var t := Lower("Reactions");
    assert t == "reactions";
    assert !KeyMatches(t, 0);
    assert OccursAt(t, "react", 0);
  }

  /** Keys match as substrings, not as words: the topic "Reactions" (itself
      an entry of the chemistry list) contains "react" and installs the
      React list. */
  lemma ReactionsSuggestions()
    ensures Suggestions("Reactions") == SuggestionTable[1].1
  {
    ReactionsMatchesKey();
  }

  /** No key of the table occurs in the lower-cased "Biology". */
  lemma BiologyMatchesNoKey()
    ensures FindKey(Lower("Biology"), 0) == None
  {
    var t := Lower("Biology");
    assert t == "biology";
    NotContains(t, SuggestionTable[0].0);
    assert t[..3] == "bio";
    NotContains(t, SuggestionTable[1].0);
    NotContains(t, SuggestionTable[2].0);
    assert t[..1] == "b";
    NotContains(t, SuggestionTable[3].0);
    NotContains(t, SuggestionTable[4].0);
  }

  /** The template list for "Biology", spelled out. */
  lemma BiologyTemplates()
    ensures GenericSuggestions("Biology") ==
      ["Introduction to Biology", "Core Concepts of Biology", "Advanced Biology Topics",
       "Practical Applications", "Examples and Case Studies"]
  {
    assert "Introduction to " + "Biology" == "Introduction to Biology";
    assert "Core Concepts of " + "Biology" == "Core Concepts of Biology";
    assert "Advanced " + "Biology" + " Topics" == "Advanced Biology Topics";
  }

  /** A topic that matches no key gets the template list, with the topic
      interpolated verbatim into the first three entries. */
  lemma BiologySuggestions()
    ensures Suggestions("Biology") ==
      ["Introduction to Biology", "Core Concepts of Biology", "Advanced Biology Topics",
       "Practical Applications", "Examples and Case Studies"]
  {
    BiologyMatchesNoKey();
    BiologyTemplates();
  }

  // ---------------------------------------------------------------------
  // Editing the subtopic list

  /** `subtopics.filter((_, i) => i !== index)`: every entry but the one at
      `index`; an index outside the list removes nothing. */
  function RemoveAt(s: seq<string>, index: int): (r: seq<string>)
    ensures 0 <= index < |s| ==> r == s[..index] + s[index + 1..]
    ensures !(0 <= index < |s|) ==> r == s
  {
    if s == [] then []
    else (if index == 0 then [] else [s[0]]) + RemoveAt(s[1..], index - 1)
  }

  // ---------------------------------------------------------------------
  // The submit guard and the filtering of blank subtopics

  /** A subtopic is kept when `s.trim() !== ''`, that is, when it has a
      character that is not whitespace (lemma FilledIffTrimNonEmpty). */
  predicate IsFilled(s: string) {
    !IsBlank(s)
  }

  /** The filter's test, stated with `trim` as the source writes it. */
  lemma FilledIffTrimNonEmpty(s: string)
    ensures IsFilled(s) <==> Trim(s) != ""
  {
    TrimEmptyIffBlank(s);
  }

  /** `subtopics.filter(s => s.trim() !== '')`. */
  function ValidSubtopics(subs: seq<string>): (r: seq<string>)
    ensures |r| <= |subs|
    ensures forall i :: 0 <= i < |r| ==> IsFilled(r[i])
  {
    if subs == [] then []
    else (if IsFilled(subs[0]) then [subs[0]] else []) + ValidSubtopics(subs[1..])
  }

  /** Filtering distributes over concatenation, so the kept entries keep
      their input order. */
  lemma {:induction false} ValidSubtopicsAppend(a: seq<string>, b: seq<string>)
    ensures ValidSubtopics(a + b) == ValidSubtopics(a) + ValidSubtopics(b)
  {
    if a == [] {
      assert a + b == b;
    } else {
      assert (a + b)[0] == a[0] && (a + b)[1..] == a[1..] + b;
      ValidSubtopicsAppend(a[1..], b);
    }
  }

  /** A string is kept exactly when it is an entry with a non-whitespace
      character. */
  lemma {:induction false} ValidSubtopicsMembers(subs: seq<string>, s: string)
    ensures s in ValidSubtopics(subs) <==> s in subs && !IsBlank(s)
  {
    if subs != [] {
      ValidSubtopicsMembers(subs[1..], s);
      assert subs == [subs[0]] + subs[1..];
    }
  }

  /** A list without blank entries passes the filter unchanged. */
  lemma {:induction false} ValidSubtopicsOfFilled(subs: seq<string>)
    requires forall i :: 0 <= i < |subs| ==> IsFilled(subs[i])
    ensures ValidSubtopics(subs) == subs
  {
    if subs != [] {
      ValidSubtopicsOfFilled(subs[1..]);
    }
  }

  /** Some entry survives the filter exactly when some entry has a
      character that is not whitespace. */
  lemma SomeFilledIffKept(subs: seq<string>)
    ensures |ValidSubtopics(subs)| > 0 <==> exists i :: 0 <= i < |subs| && !IsBlank(subs[i])
  {
    if exists i :: 0 <= i < |subs| && !IsBlank(subs[i]) {
      var i :| 0 <= i < |subs| && !IsBlank(subs[i]);
      ValidSubtopicsMembers(subs, subs[i]);
    }
    if |ValidSubtopics(subs)| > 0 {
      var v := ValidSubtopics(subs);
      ValidSubtopicsMembers(subs, v[0]);
      var i :| 0 <= i < |subs| && subs[i] == v[0];
    }
  }

  /** The condition under which `handleAnalysis` proceeds (and the submit
      button is enabled): a URL, a topic, and an entry that is not blank.
      Passing it guarantees a non-zero divisor for the mean. */
  function CanSubmit(videoUrl: string, topic: string, subs: seq<string>): (b: bool)
    ensures b <==> videoUrl != "" && topic != "" && exists i :: 0 <= i < |subs| && !IsBlank(subs[i])
    ensures b ==> |ValidSubtopics(subs)| > 0
  {
    SomeFilledIffKept(subs);
    videoUrl != "" && topic != "" && |ValidSubtopics(subs)| > 0
  }

  // ---------------------------------------------------------------------
  // Fabricating one analysis

  /** The status bucket of a coverage percentage; 40 and 80 belong to the
      higher bucket. */
  function StatusOf(coverage: int): (s: Status)
    ensures s == Covered <==> coverage >= 80
    ensures s == Partial <==> 40 <= coverage < 80
    ensures s == Missing <==> coverage < 40
  {
    if coverage >= 80 then Covered
    else if coverage >= 40 then Partial
    else Missing
  }

  /** The three placeholder keywords of a subtopic: its lower-cased name, and
      that name followed by " concepts" and by " examples". */
  function Keywords(name: string): (k: seq<string>)
    ensures |k| == 3 && k[0] == Lower(name)
    ensures k[1] == k[0] + " concepts" && k[2] == k[0] + " examples"
    ensures forall i :: 0 <= i < 3 ==> IsLowerCase(k[i]) && |k[i]| >= |name|
  {
    var n := Lower(name);
    LowerIsLowerCase(name);
    assert IsLowerCase(n + " concepts");
    assert IsLowerCase(n + " examples");
    [n, n + " concepts", n + " examples"]
  }

  /** `Math.floor(u * 100)`: a coverage percentage in [0, 99]. */
  function CoverageOf(u: real): (c: int)
    requires 0.0 <= u < 1.0
    ensures 0 <= c <= 99
    ensures c as real <= u * 100.0 < c as real + 1.0
  {
    (u * 100.0).Floor
  }

  /** `Math.floor(u * 5000) + 1000`: a transcript length in [1000, 5999]. */
  function TranscriptLengthOf(u: real): (n: int)
    requires 0.0 <= u < 1.0
    ensures 1000 <= n < 6000
    ensures (n - 1000) as real <= u * 5000.0 < (n - 999) as real
  {
    (u * 5000.0).Floor + 1000
  }

  /** All draws are values `Math.random()` can return. */
  predicate AreDraws(draws: seq<real>) {
    forall i :: 0 <= i < |draws| ==> 0.0 <= draws[i] < 1.0
  }

  /** A subtopic analysis as the fabrication produces it: coverage in
      [0, 99] and the status the thresholds give. */
  predicate IsConsistent(a: SubtopicAnalysis) {
    0 <= a.coverage <= 99 && a.status == StatusOf(a.coverage)
  }

  /** The `map` over the kept subtopics: one analysis per name, in order,
      with the name verbatim, the coverage of its draw, the status of that
      coverage and the name's keywords. */
  function AnalyzeAll(names: seq<string>, draws: seq<real>): (r: seq<SubtopicAnalysis>)
    requires |draws| == |names| && AreDraws(draws)
    ensures |r| == |names|
    ensures forall i :: 0 <= i < |r| ==>
      r[i].name == names[i] && r[i].coverage == CoverageOf(draws[i]) && IsConsistent(r[i])
      && r[i].keywords == Keywords(names[i])
  {
    if names == [] then []
    else
      var c := CoverageOf(draws[0]);
      [SubtopicAnalysis(names[0], c, StatusOf(c), Keywords(names[0]))]
        + AnalyzeAll(names[1..], draws[1..])
  }

  /** The coverage values of a list of analyses. */
  function Coverages(analyses: seq<SubtopicAnalysis>): (cs: seq<int>)
    ensures |cs| == |analyses|
    ensures forall i :: 0 <= i < |cs| ==> cs[i] == analyses[i].coverage
  {
    seq(|analyses|, i requires 0 <= i < |analyses| => analyses[i].coverage)
  }

  /** `Math.round(sum of coverages / count)`: it lies between the smallest
      and the largest coverage, and within half a point of the exact mean. */
  function OverallScore(analyses: seq<SubtopicAnalysis>): (score: int)
    requires |analyses| > 0
    ensures MinOf(Coverages(analyses)) <= score <= MaxOf(Coverages(analyses))
    ensures Mean(Coverages(analyses)) - 0.5 < score as real <= Mean(Coverages(analyses)) + 0.5
  {
    RoundedMeanBetween(Coverages(analyses));
    Round(Mean(Coverages(analyses)))
  }

  /** When every coverage lies in [0, 99], so does the overall score. */
  lemma OverallScoreInRange(analyses: seq<SubtopicAnalysis>)
    requires |analyses| > 0
    requires forall i :: 0 <= i < |analyses| ==> 0 <= analyses[i].coverage <= 99
    ensures 0 <= OverallScore(analyses) <= 99
  {
    var cs := Coverages(analyses);
    var lo :| 0 <= lo < |cs| && cs[lo] == MinOf(cs);
    var hi :| 0 <= hi < |cs| && cs[hi] == MaxOf(cs);
  }

  /** `extractVideoId(videoUrl) || 'demo123'`. */
  function VideoIdOrPlaceholder(url: string): (id: string)
    ensures ExtractVideoId(url).Some? ==> id == ExtractVideoId(url).value && IsVideoId(id)
    ensures ExtractVideoId(url).None? ==> id == "demo123"
  {
    match ExtractVideoId(url)
    case Some(v) => v
    case None => "demo123"
  }

  /** The invariants of a materialised result: at least one subtopic, each
      consistent with its coverage, the overall score the rounded mean of
      the coverages and inside [0, 99], and a transcript length in
      [1000, 5999]. */
  predicate IsWellFormed(r: AnalysisResult) {
    |r.subtopics| > 0
    && (forall i :: 0 <= i < |r.subtopics| ==> IsConsistent(r.subtopics[i]))
    && r.overallScore == OverallScore(r.subtopics)
    && 0 <= r.overallScore <= 99
    && 1000 <= r.transcriptLength < 6000
  }

  /** `simulateAnalysis` once its delay has elapsed: the report for the
      current form contents. */
  function Simulate(videoUrl: string, topic: string, subs: seq<string>,
                    draws: seq<real>, transcriptDraw: real, date: string): (r: AnalysisResult)
    requires |ValidSubtopics(subs)| > 0
    requires |draws| == |ValidSubtopics(subs)| && AreDraws(draws)
    requires 0.0 <= transcriptDraw < 1.0
    ensures IsWellFormed(r)
    ensures r.videoId == VideoIdOrPlaceholder(videoUrl)
    ensures r.title == "Educational Video: " + topic && r.topic == topic
    ensures r.subtopics == AnalyzeAll(ValidSubtopics(subs), draws)
    ensures r.transcriptLength == TranscriptLengthOf(transcriptDraw)
    ensures r.analysisDate == date
  {
    var analyses := AnalyzeAll(ValidSubtopics(subs), draws);
    OverallScoreInRange(analyses);
    AnalysisResult(
      VideoIdOrPlaceholder(videoUrl),
      "Educational Video: " + topic,
      topic,
      OverallScore(analyses),
      analyses,
      TranscriptLengthOf(transcriptDraw),
      date)
  }

  /** The report holds one analysis per filled subtopic, in input order, each
      named after it. */
  lemma SimulateNames(videoUrl: string, topic: string, subs: seq<string>,
                      draws: seq<real>, transcriptDraw: real, date: string)
    requires |ValidSubtopics(subs)| > 0
    requires |draws| == |ValidSubtopics(subs)| && AreDraws(draws)
    requires 0.0 <= transcriptDraw < 1.0
    ensures var r := Simulate(videoUrl, topic, subs, draws, transcriptDraw, date);
      |r.subtopics| == |ValidSubtopics(subs)|
      && forall i :: 0 <= i < |r.subtopics| ==> r.subtopics[i].name == ValidSubtopics(subs)[i]
  {
  }

  // ---------------------------------------------------------------------
  // The component state

  /** The state of the VideoAnalyzer component and its event handlers. */
  class AnalyzerForm {
    var videoUrl: string
    var topic: string
    var subtopics: seq<string>
    var isAnalyzing: bool

    /** The form's at-least-one-field rule: it starts with one field, adding
        keeps the rule, and removal is only offered while there are two or
        more fields. The editing methods keep it; nothing else relies on
        it. */
    ghost predicate Valid()
      reads this
    {
      |subtopics| >= 1
    }

    /** The initial state: empty URL and topic, one empty subtopic field. */
    constructor ()
      ensures Valid()
      ensures videoUrl == "" && topic == "" && subtopics == [""] && !isAnalyzing
    {
      videoUrl, topic, subtopics, isAnalyzing := "", "", [""], false;
    }

    /** The URL field's `onChange`. */
    method SetVideoUrl(value: string)
      modifies this`videoUrl
      ensures videoUrl == value
    {
      videoUrl := value;
    }

    /** The topic field's `onChange`. */
    method SetTopic(value: string)
      modifies this`topic
      ensures topic == value
    {
      topic := value;
    }

    /** `addSubtopic`: one more, empty, field at the end. */
    method AddSubtopic()
      requires Valid()
      modifies this`subtopics
      ensures Valid()
      ensures |subtopics| == |old(subtopics)| + 1 && subtopics[|subtopics| - 1] == ""
      ensures subtopics[..|old(subtopics)|] == old(subtopics)
    {
      subtopics := subtopics + [""];
    }

    /** `removeSubtopic`: drops the field at `index` and keeps the others in
      order. The remove button is only shown while there is more than one
      field, which keeps at least one. */
    method RemoveSubtopic(index: int)
      requires Valid() && |subtopics| > 1
      modifies this`subtopics
      ensures Valid()
      ensures subtopics == RemoveAt(old(subtopics), index)
      ensures 0 <= index < |old(subtopics)| ==> |subtopics| == |old(subtopics)| - 1
      ensures !(0 <= index < |old(subtopics)|) ==> subtopics == old(subtopics)
    {
      subtopics := RemoveAt(subtopics, index);
    }

    /** `updateSubtopic`: writes `value` into the field at `index` of a copy
      and installs the copy; `index` comes from rendering the list, so it is
      in range. */
    method UpdateSubtopic(index: int, value: string)
      requires Valid() && 0 <= index < |subtopics|
      modifies this`subtopics
      ensures Valid()
      ensures |subtopics| == |old(subtopics)| && subtopics[index] == value
      ensures forall j :: 0 <= j < |subtopics| && j != index ==> subtopics[j] == old(subtopics)[j]
    {
      var updated := subtopics;
      updated := updated[index := value];
      subtopics := updated;
    }

    /** `generateSubtopics`: nothing for an empty topic, else the suggestion
      list replaces the fields wholesale. */
    method GenerateSubtopics()
      requires Valid()
      modifies this`subtopics
      ensures Valid()
      ensures topic == "" ==> subtopics == old(subtopics)
      ensures topic != "" ==> subtopics == Suggestions(topic)
    {
      if topic == "" {
        return;
      }
      subtopics := Suggestions(topic);
    }

    /** The submit button's `disabled` expression, negated: the form is
        idle, the URL and topic are non-empty and some entry is not blank. */
    function SubmitEnabled(): (b: bool)
      reads this
      ensures b <==> !isAnalyzing && videoUrl != "" && topic != ""
                     && exists i :: 0 <= i < |subtopics| && !IsBlank(subtopics[i])
    {
      !isAnalyzing && CanSubmit(videoUrl, topic, subtopics)
    }

    /** `handleAnalysis`: does nothing unless the guard holds; otherwise
      marks the form busy, fabricates the report from the draws, and clears
      the busy flag. The report is what is handed to `onAnalysisComplete`. */
    method HandleAnalysis(draws: seq<real>, transcriptDraw: real, date: string)
      returns (result: Option<AnalysisResult>)
      requires |draws| == |ValidSubtopics(subtopics)| && AreDraws(draws)
      requires 0.0 <= transcriptDraw < 1.0
      modifies this`isAnalyzing
      ensures result.Some? <==> CanSubmit(videoUrl, topic, subtopics)
      ensures old(SubmitEnabled()) ==> result.Some?
      ensures result.Some? ==>
        result.value == Simulate(videoUrl, topic, subtopics, draws, transcriptDraw, date)
      ensures result.Some? ==> IsWellFormed(result.value) && !isAnalyzing
      ensures result.None? ==> isAnalyzing == old(isAnalyzing)
    {
      if !CanSubmit(videoUrl, topic, subtopics) {
        return None;
      }
      isAnalyzing := true;
      var report := Simulate(videoUrl, topic, subtopics, draws, transcriptDraw, date);
      result := Some(report);
      isAnalyzing := false;
    }
  }
}
