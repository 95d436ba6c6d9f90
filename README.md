# EduVideo Analyzer — a Dafny model of its session and derivation rules

EduVideo Analyzer is a browser front-end. A user enters a video URL, an
educational topic and a list of expected subtopics. The app then fabricates a
coverage report: a random coverage percentage per subtopic, a status bucket
derived from it, and an overall score that is the rounded mean of the
coverages. Reports are kept newest first and summarised on a dashboard.

This project models the three components that hold that logic:

- `src/components/VideoAnalyzer.tsx`: the form state and its handlers (class
  `Analyzer.AnalyzerForm`), the suggestion table, the submit guard, the
  video-id regular expression (module `VideoId`) and the fabrication of one
  report (`Analyzer.Simulate`).
- `src/components/Dashboard.tsx`: the derived figures of the dashboard
  (module `Dashboard`, pure functions).
- `src/App.tsx`: the two record types (module `AnalysisTypes`) and the
  session state with its handlers. The transitions are a pure function
  `App.Step`, used to prove the invariants of every reachable state. The
  class `App.AppState` holds the same three fields as mutable state. Each of
  its event handlers is proved to perform exactly one `Step`. `Submit`
  performs one completion `Step` or none, and `MainPage` performs none.

Supporting modules: `Text` gives JavaScript's `trim`, `\s`, `toLowerCase`
and `includes`. `Stats` gives the `reduce` sum, the mean and `Math.round`.

Every `Math.random()` call becomes an input `u` with `0.0 <= u < 1.0`. The
date string becomes an input. So every derived value is a function of the
inputs.

Facts about the code that the model relies on:

- Coverage is `Math.floor(Math.random() * 100)`, so it lies in [0, 99]. The
  overall score is a rounded mean of coverages, so it lies in [0, 99] too
  (`Analyzer.OverallScoreInRange`).
- The two navigation buttons in the header are always shown and set the view
  directly. So from any view the user can go to the dashboard or the
  analyzer.
- The results view is entered by a completed analysis or by "View Details".
  "View Details" exists only on the dashboard. `App.Step` accepts both
  events in every view. It therefore admits more event sequences than the
  page can produce, so `App.ReachableIsSafe`, proved over all of them, is
  stronger than the page needs.
- `extractVideoId` returns `null` when the pattern does not match. The
  caller substitutes `'demo123'` (`Analyzer.VideoIdOrPlaceholder`).
- The handler `removeSubtopic` itself would empty a one-entry list. The
  at-least-one-field rule comes from rendering the remove button only while
  there are two or more fields.

## Model

| member | source | states |
|---|---|---|
| Text.TrimStart | src/components/VideoAnalyzer.tsx:71 | the result is a suffix of the input, everything dropped is whitespace, and the result is empty or starts with a non-whitespace character |
| Text.TrimEnd | src/components/VideoAnalyzer.tsx:71 | the result is a prefix of the input, everything dropped is whitespace, and the result is empty or ends with a non-whitespace character |
| Text.Trim | src/components/VideoAnalyzer.tsx:71 | `trim` gives a slice of the input with only whitespace before and after it, and the slice neither starts nor ends with whitespace |
| Text.TrimEmptyIffBlank | src/components/VideoAnalyzer.tsx:71 | `s.trim()` is empty exactly when every character of `s` is whitespace |
| Text.LowerChar | src/components/VideoAnalyzer.tsx:41 | an ASCII capital becomes its lower-case letter (code point + 32), and any other character is unchanged |
| Text.Lower | src/components/VideoAnalyzer.tsx:41 | `toLowerCase` keeps the length and lowers each character in place |
| Text.LowerIsLowerCase | src/components/VideoAnalyzer.tsx:87-89 | lower-casing yields a lower-case string, leaves a lower-case string unchanged, and is idempotent |
| Text.Contains | src/components/VideoAnalyzer.tsx:43 | `includes` is true exactly when the key occurs at some index |
| Text.NotContains | src/components/VideoAnalyzer.tsx:43 | a key whose first character occurs at no position where it would fit is not included |
| Stats.Reduce | src/components/VideoAnalyzer.tsx:94 | the `reduce((sum, x) => sum + x, acc)` fold, accumulating left to right; specified through `Stats.Sum` and `Stats.ReduceShift` |
| Stats.Sum | src/components/VideoAnalyzer.tsx:94 | the front-recursive sum equals the left-to-right accumulation of `reduce` with initial value 0 |
| Stats.ReduceShift | src/components/Dashboard.tsx:12 | the accumulator of the `reduce` fold can be taken out: folding from `acc` gives `acc` plus the fold from 0 |
| Stats.SumBetween | src/components/VideoAnalyzer.tsx:94 | a sum of n terms in [lo, hi] lies in [n·lo, n·hi] |
| Stats.Mean | src/components/VideoAnalyzer.tsx:94 | the mean times the count is the sum |
| Stats.MeanBetween | src/components/Dashboard.tsx:12 | the mean lies between the smallest and the largest element |
| Stats.Round | src/components/VideoAnalyzer.tsx:100 | `Math.round(x)` is the integer within half a point of x, halves going up |
| Stats.RoundedMeanBetween | src/components/VideoAnalyzer.tsx:94-100 | the rounded mean lies between the smallest and the largest element |
| VideoId.RunEnd | src/components/VideoAnalyzer.tsx:61 | the characters `.` can match from an index run up to the first line terminator or the end |
| VideoId.SlashFrom | src/components/VideoAnalyzer.tsx:61 | the first '/' at or after an index, or none, as `[^\/]+\/` needs |
| VideoId.LastStop | src/components/VideoAnalyzer.tsx:61 | a greedy wildcard stops at the largest position in range where the rest of the pattern matches, or nowhere |
| VideoId.NestedAlt | src/components/VideoAnalyzer.tsx:61 | the alternative `[^\/]+\/.+\/` captures only an 11-character id |
| VideoId.QueryAlt | src/components/VideoAnalyzer.tsx:61 | the alternative `.*[?&]v=` captures only an 11-character id |
| VideoId.MatchAt | src/components/VideoAnalyzer.tsx:61 | the pattern tried at one start index, alternatives in written order, captures only an id |
| VideoId.FirstMatch | src/components/VideoAnalyzer.tsx:62 | the leftmost start index that matches gives the capture; none means no index at or after the start matches |
| VideoId.ExtractVideoId | src/components/VideoAnalyzer.tsx:60-64 | a non-null id has 11 characters, none of them `"`, `&`, `?`, `/` or whitespace, and occurs in the URL; null exactly when the pattern matches nowhere |
| VideoId.FirstMatchIs | src/components/VideoAnalyzer.tsx:62 | when the pattern fails before index k and matches at k, the search returns the match at k |
| VideoId.NoMatchWithoutY | src/components/VideoAnalyzer.tsx:61 | the pattern cannot match at a character other than 'y' |
| VideoId.ExtractAfterNoY | src/components/VideoAnalyzer.tsx:60-64 | with no 'y' before a matching index, the id is the one captured there |
| VideoId.WatchUrl | src/components/VideoAnalyzer.tsx:60-64 | `https://www.youtube.com/watch?v=<id>` yields `<id>` for every valid id |
| VideoId.EmbedUrl | src/components/VideoAnalyzer.tsx:60-64 | `https://www.youtube.com/embed/<id>` yields `<id>` |
| VideoId.ShortUrl | src/components/VideoAnalyzer.tsx:60-64 | `https://youtu.be/<id>` yields `<id>` |
| VideoId.NotAUrl | src/components/VideoAnalyzer.tsx:60-64 | "not a url" yields no id |
| Analyzer.SuggestionTable | src/components/VideoAnalyzer.tsx:33-39 | the `commonSubtopics` table, its five keys and lists in `Object.entries` order |
| Analyzer.SuggestionTableShape | src/components/VideoAnalyzer.tsx:33-43 | five entries, every key lower-case, every list at least five long |
| Analyzer.FindKey | src/components/VideoAnalyzer.tsx:42-44 | `find` returns the first table index whose key occurs in the lower-cased topic, or none when no key occurs |
| Analyzer.GenericSuggestions | src/components/VideoAnalyzer.tsx:50-56 | five entries: the topic verbatim after "Introduction to " and "Core Concepts of ", between "Advanced " and " Topics", then two fixed entries |
| Analyzer.Suggestions | src/components/VideoAnalyzer.tsx:33-57 | the list of the first matching key in table order, else the five generic entries; always at least five |
| Analyzer.CalculusSuggestions | src/components/VideoAnalyzer.tsx:36 | "Calculus" gives Limits, Derivatives, Integration, Chain Rule, Applications |
| Analyzer.ReactionsSuggestions | src/components/VideoAnalyzer.tsx:35-43 | keys match as substrings: "Reactions" gives the React list |
| Analyzer.BiologySuggestions | src/components/VideoAnalyzer.tsx:50-56 | "Biology" gives the generic list with the topic in the first three entries |
| Analyzer.RemoveAt | src/components/VideoAnalyzer.tsx:20 | the filter drops exactly the entry at the index and keeps the rest in order; an out-of-range index changes nothing |
| Analyzer.FilledIffTrimNonEmpty | src/components/VideoAnalyzer.tsx:71 | an entry is kept exactly when its trim is non-empty |
| Analyzer.ValidSubtopics | src/components/VideoAnalyzer.tsx:71 | the kept entries are no more than the input and each has a non-whitespace character |
| Analyzer.ValidSubtopicsAppend | src/components/VideoAnalyzer.tsx:71 | filtering distributes over concatenation, so input order is kept |
| Analyzer.ValidSubtopicsMembers | src/components/VideoAnalyzer.tsx:71 | a string is kept exactly when it is a non-blank entry |
| Analyzer.ValidSubtopicsOfFilled | src/components/VideoAnalyzer.tsx:71 | a list without blank entries is kept whole |
| Analyzer.SomeFilledIffKept | src/components/VideoAnalyzer.tsx:71 | the filter keeps some entry exactly when some entry is not blank |
| Analyzer.CanSubmit | src/components/VideoAnalyzer.tsx:108-110 | the guard passes exactly when URL and topic are non-empty and some entry is not blank, and passing it makes the mean's divisor non-zero |
| Analyzer.StatusOf | src/components/VideoAnalyzer.tsx:76-80 | covered iff coverage ≥ 80, partial iff 40 ≤ coverage < 80, missing iff coverage < 40 |
| Analyzer.Keywords | src/components/VideoAnalyzer.tsx:86-90 | three keywords: the lower-cased name, then it followed by " concepts" and " examples", all lower-case |
| Analyzer.CoverageOf | src/components/VideoAnalyzer.tsx:75 | the coverage is the integer part of u·100 and lies in [0, 99] |
| Analyzer.TranscriptLengthOf | src/components/VideoAnalyzer.tsx:102 | the transcript length is 1000 plus the integer part of u·5000, so it lies in [1000, 5999] |
| Analyzer.AnalyzeAll | src/components/VideoAnalyzer.tsx:74-92 | one analysis per kept name, in order, with the name verbatim, the coverage of its draw, the status of that coverage and the name's keywords |
| Analyzer.OverallScore | src/components/VideoAnalyzer.tsx:94-100 | the overall score lies between the smallest and largest coverage and within half a point of the mean |
| Analyzer.OverallScoreInRange | src/components/VideoAnalyzer.tsx:75-100 | with coverages in [0, 99] the overall score is in [0, 99] |
| Analyzer.VideoIdOrPlaceholder | src/components/VideoAnalyzer.tsx:70 | the extracted id when there is one, else "demo123" |
| Analyzer.Simulate | src/components/VideoAnalyzer.tsx:66-105 | the report is well formed (consistent statuses, score the rounded mean in [0, 99], transcript length in range) and carries the id, "Educational Video: " + topic, the topic verbatim, the analyses of the kept subtopics, the transcript length of its draw and the date |
| Analyzer.SimulateNames | src/components/VideoAnalyzer.tsx:71-92 | the report has one subtopic per kept entry, named after it, in input order |
| Analyzer.AnalyzerForm.constructor | src/components/VideoAnalyzer.tsx:10-13 | empty URL and topic, one empty subtopic field, not analyzing |
| Analyzer.AnalyzerForm.SetVideoUrl | src/components/VideoAnalyzer.tsx:145 | the URL field becomes the typed value |
| Analyzer.AnalyzerForm.SetTopic | src/components/VideoAnalyzer.tsx:163 | the topic field becomes the typed value |
| Analyzer.AnalyzerForm.AddSubtopic | src/components/VideoAnalyzer.tsx:15-17 | exactly one empty entry is appended and the old entries are unchanged |
| Analyzer.AnalyzerForm.RemoveSubtopic | src/components/VideoAnalyzer.tsx:19-21 | the list becomes `RemoveAt` of the old list: one entry fewer for an in-range index, unchanged otherwise; at least one field remains |
| Analyzer.AnalyzerForm.UpdateSubtopic | src/components/VideoAnalyzer.tsx:23-27 | entry i becomes v; the length and every other entry are unchanged |
| Analyzer.AnalyzerForm.GenerateSubtopics | src/components/VideoAnalyzer.tsx:29-58 | an empty topic changes nothing; otherwise the list becomes the topic's suggestions |
| Analyzer.AnalyzerForm.SubmitEnabled | src/components/VideoAnalyzer.tsx:223 | the submit button is enabled exactly when the form is idle, URL and topic are non-empty and some entry is not blank |
| Analyzer.AnalyzerForm.HandleAnalysis | src/components/VideoAnalyzer.tsx:107-120 | a report exactly when the guard passes, and always when the button was enabled; the report is the fabricated, well-formed one and the busy flag is cleared; otherwise nothing changes |
| Dashboard.TotalVideos | src/components/Dashboard.tsx:11 | the number of results; zero exactly for the empty list |
| Dashboard.Scores | src/components/Dashboard.tsx:12 | the overall scores in list order |
| Dashboard.AverageScore | src/components/Dashboard.tsx:12 | 0 for an empty list, else the sum of the scores divided by their count (average × count = sum) |
| Dashboard.AverageScoreBetween | src/components/Dashboard.tsx:12 | a non-empty list's average lies between the lowest and highest score |
| Dashboard.AverageScoreInRange | src/components/Dashboard.tsx:12 | with well-formed results the average lies in [0, 99] |
| Dashboard.HighQualityResults | src/components/Dashboard.tsx:13 | every kept result scores at least 80; none kept iff all score below 80; all kept iff all score at least 80 |
| Dashboard.HighQualityMembers | src/components/Dashboard.tsx:13 | a result is counted exactly when it is listed and scores at least 80 |
| Dashboard.HighQualityVideos | src/components/Dashboard.tsx:13 | the count never exceeds the total and is 0 or the total exactly in the all-below and all-above cases |
| Dashboard.HighQualityAppend | src/components/Dashboard.tsx:13 | the count of a concatenation is the sum of the counts |
| Dashboard.RecentResults | src/components/Dashboard.tsx:14 | the first min(5, n) results, in the same order |
| Dashboard.QualityRate | src/components/Dashboard.tsx:86 | 0 for an empty list, else high·100/total; in [0, 100]; 0 iff none scores 80, 100 iff the list is non-empty and all do |
| Dashboard.ScoreColor | src/components/Dashboard.tsx:16-20 | emerald iff score ≥ 80, amber iff 60 ≤ score < 80, red iff score < 60 |
| Dashboard.ScoreBg | src/components/Dashboard.tsx:22-26 | the same three bands for the background |
| Dashboard.ColorAndBgAgree | src/components/Dashboard.tsx:16-26 | two scores share a text colour exactly when they share a background |
| Dashboard.CoveredSubtopics | src/components/Dashboard.tsx:122 | only subtopics with status covered; none kept iff none is covered, all kept iff all are |
| Dashboard.CoveredAppend | src/components/Dashboard.tsx:122 | the filter distributes over concatenation, so the count of a list is the sum of the counts of its parts |
| Dashboard.CoveredCount | src/components/Dashboard.tsx:122 | the covered count never exceeds the number of subtopics, is 0 iff none is covered, and is the total iff all are |
| Dashboard.CoveredMeansCoverage | src/components/Dashboard.tsx:122 | in consistent analyses, covered means coverage at least 80 |
| App.Initial | src/App.tsx:25-27 | the initial state has no results and no selection, satisfies the results-view invariant, and renders the dashboard of an empty list |
| App.Step | src/App.tsx:29-68 | completion prepends the result, selects and shows it; viewing selects and shows; the two navigation buttons go to the dashboard and the analyzer, keeping the list and the selection |
| App.Render | src/App.tsx:85-93 | the dashboard, the analyzer or the selected result by view; nothing only in the results view without a selection |
| App.ReachableIsSafe | src/App.tsx:29-38 | in every reachable state the results view has a current result, so the main area always renders |
| App.Completed | src/App.tsx:30 | no more completed results than events |
| App.RunResults | src/App.tsx:30 | the list is exactly the completed results, newest first |
| App.ResultsOnlyGrow | src/App.tsx:30 | later events only add entries in front; the earlier list stays as the list's tail |
| App.CompletedIsFirst | src/App.tsx:29-33 | after a completion the result heads the list and the recent results, is selected and shown, and the list grew by one |
| App.PhysicsSession | src/components/VideoAnalyzer.tsx:60-120 | watch URL of an id, topic "Physics", two subtopics: submittable, the report carries the id and two subtopics, its score is in [0, 99], and it heads the dashboard list |
| App.AppState.constructor | src/App.tsx:25-27 | dashboard view, no results, no selection |
| App.AppState.HandleAnalysisComplete | src/App.tsx:29-33 | one `Step` for a completion: the list becomes [r] + old, r is selected, the view is results |
| App.AppState.HandleViewResults | src/App.tsx:35-38 | one `Step` for viewing: r selected, results view, list unchanged |
| App.AppState.ShowDashboard | src/App.tsx:57 | one `Step` for the dashboard button: only the view changes |
| App.AppState.ShowAnalyzer | src/App.tsx:68 | one `Step` for the analyzer button: only the view changes |
| App.AppState.MainPage | src/App.tsx:85-93 | the page the render chooses, never empty |
| App.AppState.Submit | src/components/VideoAnalyzer.tsx:107-120 | a report exactly when the guard passes; the report is the form's `Simulate` result and well formed, the session takes one completion `Step` with it, and the form is no longer busy; otherwise session and busy flag are unchanged |

## Left out

- Rendering: JSX, CSS classes other than the two score colourings, icons, labels and the explanatory text.
- The 2-second `setTimeout`, `async`/`await`, `try`/`catch` and `console.error`: the fabrication cannot fail, so there is no error path. `HandleAnalysis` sets and clears `isAnalyzing` within one call; the interval during which the button is disabled is not modelled.
- Edits made during the delay: the source builds the report from the state captured when the button was clicked. The model builds it from the fields at the call, with no interleaving.
- Unmounting the analyzer: leaving the analyzer view unmounts `VideoAnalyzer` (src/App.tsx:88-90), so its form returns to the initial state (src/components/VideoAnalyzer.tsx:10-13) on the next visit. The model keeps one `Analyzer.AnalyzerForm` whose fields do not depend on the App's view, so it does not capture that reset.
- VideoId.ExtractVideoId: strings are sequences of Unicode scalar values. The regular expression has no `u` flag, so JavaScript counts UTF-16 code units in `{11}` and `.`. A URL whose id part holds characters outside the Basic Multilingual Plane is measured differently. For example, "https://youtu.be/" followed by six emoji is 12 code units: JavaScript captures 11 of them, while the model returns None.
- `Math.random()`: every draw is an input in [0, 1).
- `new Date().toLocaleDateString()`: the date is an input string.
- Text.Lower: ASCII capitals only. JavaScript also lowers non-ASCII capitals such as 'É', which the model leaves unchanged.
- Numbers are exact integers and reals. IEEE-754 rounding of the mean is not modelled, nor the `toFixed` display of the average and of the quality rate.
- Analyzer.AnalyzerForm.UpdateSubtopic: requires an in-range index, since the input list only passes indices of existing fields. For an index past the end, JavaScript would grow the array, and that is not modelled.
- Analyzer.AnalyzerForm.RemoveSubtopic: requires more than one field, the condition under which the remove button is rendered (src/components/VideoAnalyzer.tsx:196). Called on a single field, the handler itself would leave an empty list.
- The "Generate AI Suggestions" button is disabled for an empty topic. The model does not need that, since `GenerateSubtopics` already does nothing for an empty topic.
- The `Results` component: src/components/Results.tsx is not part of this model. `App.Render` only says which result it receives.
