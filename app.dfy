/** The application shell (src/App.tsx): the session's three state fields,
    the handlers that update them, and the choice of page to render. The
    transitions are first given as a pure function on session states (Step),
    from which the lemmas about every reachable state follow; the class
    AppState holds the same fields as mutable state, and each of its methods
    that handles an event is proved to perform exactly one Step; Submit
    performs one completion Step or none, and MainPage performs none. */
module App {
  import opened AnalysisTypes
  import opened Analyzer
  import opened Dashboard
  import opened VideoId
  import opened Text

  /** `currentView`. */
  datatype View = DashboardView | AnalyzerView | ResultsView

  /** The three state fields of the App component. */
  datatype SessionState = SessionState(
    view: View,
    results: seq<AnalysisResult>,
    current: Option<AnalysisResult>)

  /** What can happen to the session: an analysis completes, a listed result
      is opened from the dashboard, or a navigation button is clicked. */
  datatype Event =
    | AnalysisCompleted(result: AnalysisResult)
    | ResultViewed(result: AnalysisResult)
    | DashboardClicked
    | AnalyzerClicked

  /** What the main area shows. */
  datatype Page =
    | DashboardPage(results: seq<AnalysisResult>)
    | AnalyzerPage
    | ResultsPage(result: AnalysisResult)
    | NoPage

  /** The state after the page loads: the dashboard of an empty list, with
      nothing selected. */
  function Initial(): (s: SessionState)
    ensures Safe(s) && Render(s) == DashboardPage([])
    ensures s.results == [] && s.current.None?
  {
    SessionState(DashboardView, [], None)
  }

  /** One event: `handleAnalysisComplete` prepends the result, selects it and
      shows it; `handleViewResults` selects and shows a result; the two nav
      buttons only change the view. */
  function Step(s: SessionState, e: Event): (t: SessionState)
    ensures e.AnalysisCompleted? ==> t.results == [e.result] + s.results
    ensures !e.AnalysisCompleted? ==> t.results == s.results
    ensures (e.DashboardClicked? || e.AnalyzerClicked?) ==> t.current == s.current
    ensures e.DashboardClicked? ==> t.view == DashboardView
    ensures e.AnalyzerClicked? ==> t.view == AnalyzerView
    ensures e.AnalysisCompleted? || e.ResultViewed? ==> t.view == ResultsView && t.current == Some(e.result)
  {
    match e
    case AnalysisCompleted(r) => SessionState(ResultsView, [r] + s.results, Some(r))
    case ResultViewed(r) => s.(view := ResultsView, current := Some(r))
    case DashboardClicked => s.(view := DashboardView)
    case AnalyzerClicked => s.(view := AnalyzerView)
  }

  /** The state reached from the initial one by a sequence of events. */
  function Run(events: seq<Event>): SessionState {
    if events == [] then Initial()
    else Step(Run(events[..|events| - 1]), events[|events| - 1])
  }

  /** The results view always has a result to show. */
  predicate Safe(s: SessionState) {
    s.view == ResultsView ==> s.current.Some?
  }

  /** The conditional rendering of the main area: the results branch also
      needs `currentResult`, and renders nothing without one. */
  function Render(s: SessionState): (p: Page)
    ensures s.view == DashboardView <==> p == DashboardPage(s.results)
    ensures s.view == AnalyzerView <==> p == AnalyzerPage
    ensures p == NoPage <==> s.view == ResultsView && s.current.None?
    ensures s.view == ResultsView && s.current.Some? ==> p == ResultsPage(s.current.value)
  {
    match s.view
    case DashboardView => DashboardPage(s.results)
    case AnalyzerView => AnalyzerPage
    case ResultsView => if s.current.Some? then ResultsPage(s.current.value) else NoPage
  }

  /** In every reachable state the results view has a current result, so
      the main area always renders a page. */
  lemma {:induction false} ReachableIsSafe(events: seq<Event>)
    ensures Safe(Run(events))
    ensures Render(Run(events)) != NoPage
  {
    if events != [] {
      ReachableIsSafe(events[..|events| - 1]);
    }
  }

  /** The results of the completion events, oldest first. */
  function Completed(events: seq<Event>): (rs: seq<AnalysisResult>)
    ensures |rs| <= |events|
  {
    if events == [] then []
    else
      var e := events[|events| - 1];
      Completed(events[..|events| - 1]) + (if e.AnalysisCompleted? then [e.result] else [])
  }

  /** `s` in reverse order. */
  function Reversed<T>(s: seq<T>): (r: seq<T>)
    ensures |r| == |s|
    ensures forall i :: 0 <= i < |s| ==> r[i] == s[|s| - 1 - i]
  {
    if s == [] then [] else [s[|s| - 1]] + Reversed(s[..|s| - 1])
  }

  /** The list is newest first: it holds exactly the completed analyses, the
      most recent at index 0. */
  lemma {:induction false} RunResults(events: seq<Event>)
    ensures Run(events).results == Reversed(Completed(events))
  {
    if events != [] {
      var init, e := events[..|events| - 1], events[|events| - 1];
      RunResults(init);
      if e.AnalysisCompleted? {
        assert Completed(events) == Completed(init) + [e.result];
        assert Reversed(Completed(events)) == [e.result] + Reversed(Completed(init));
      }
    }
  }

  /** The list only grows: whatever happens next, the earlier list is what
      remains after the entries added in front of it. */
  lemma {:induction false} ResultsOnlyGrow(events: seq<Event>, later: seq<Event>)
    ensures var before, after := Run(events).results, Run(events + later).results;
      |before| <= |after| && after[|after| - |before|..] == before
    decreases |later|
  {
    if later != [] {
      var init := events + later[..|later| - 1];
      assert (events + later)[..|events + later| - 1] == init;
      assert (events + later)[|events + later| - 1] == later[|later| - 1];
      ResultsOnlyGrow(events, later[..|later| - 1]);
      var mid, after := Run(init).results, Run(events + later).results;
      assert after == mid || after == [later[|later| - 1].result] + mid;
    } else {
      assert events + later == events;
    }
  }

  /** After an analysis completes, it is listed first and is the first of the
      dashboard's recent results. */
  lemma CompletedIsFirst(events: seq<Event>, r: AnalysisResult)
    ensures var s := Run(events + [AnalysisCompleted(r)]);
      s.results[0] == r && RecentResults(s.results)[0] == r
      && s.current == Some(r) && s.view == ResultsView
      && |s.results| == |Run(events).results| + 1
  {
    assert (events + [AnalysisCompleted(r)])[..|events|] == events;
  }

  /** Both subtopics of the sample session are kept by the filter. */
  lemma PhysicsSubtopicsKept()
    ensures ValidSubtopics(["Newton's Laws", "Momentum"]) == ["Newton's Laws", "Momentum"]
  {
    var subs := ["Newton's Laws", "Momentum"];
    assert !IsBlank(subs[0]) by { assert !IsSpace(subs[0][0]); }
    assert !IsBlank(subs[1]) by { assert !IsSpace(subs[1][0]); }
    ValidSubtopicsOfFilled(subs);
  }

  /** A full session: with the watch URL of a video `id`, topic "Physics"
      and subtopics "Newton's Laws" and "Momentum", the form may be
      submitted, the report carries that id and two subtopics, its score is
      in [0, 99], and once it completes it heads the dashboard list. */
  lemma PhysicsSession(id: string, events: seq<Event>, draws: seq<real>, transcriptDraw: real, date: string)
    requires IsVideoId(id)
    requires |draws| == 2 && AreDraws(draws) && 0.0 <= transcriptDraw < 1.0
    ensures ValidSubtopics(["Newton's Laws", "Momentum"]) == ["Newton's Laws", "Momentum"]
    ensures CanSubmit("https://www.youtube.com/watch?v=" + id, "Physics", ["Newton's Laws", "Momentum"])
    ensures
      var r := Simulate("https://www.youtube.com/watch?v=" + id, "Physics",
                        ["Newton's Laws", "Momentum"], draws, transcriptDraw, date);
      r.videoId == id && |r.subtopics| == 2 && 0 <= r.overallScore <= 99
      && RecentResults(Run(events + [AnalysisCompleted(r)]).results)[0] == r
  {
    PhysicsSubtopicsKept();
    WatchUrl(id);
    var r := Simulate("https://www.youtube.com/watch?v=" + id, "Physics",
                      ["Newton's Laws", "Momentum"], draws, transcriptDraw, date);
    assert r.videoId == id;
    assert |r.subtopics| == 2;
    assert 0 <= r.overallScore <= 99;
    CompletedIsFirst(events, r);
  }

  /** The App component's state, updated in place by its handlers. */
  class AppState {
    var currentView: View
    var analysisResults: seq<AnalysisResult>
    var currentResult: Option<AnalysisResult>

    /** The fields as a session state. */
    function State(): SessionState
      reads this
    {
      SessionState(currentView, analysisResults, currentResult)
    }

    /** The object invariant: the results view has a result. */
    ghost predicate Valid()
      reads this
    {
      Safe(State())
    }

    /** The `useState` initial values: dashboard, no results, no selection. */
    constructor ()
      ensures Valid() && State() == Initial()
      ensures currentView == DashboardView && analysisResults == [] && currentResult == None
    {
      currentView, analysisResults, currentResult := DashboardView, [], None;
    }

    /** `handleAnalysisComplete`. */
    method HandleAnalysisComplete(result: AnalysisResult)
      requires Valid()
      modifies this
      ensures Valid() && State() == Step(old(State()), AnalysisCompleted(result))
      ensures analysisResults == [result] + old(analysisResults)
      ensures currentResult == Some(result) && currentView == ResultsView
    {
      analysisResults := [result] + analysisResults;
      currentResult := Some(result);
      currentView := ResultsView;
    }

    /** `handleViewResults`, called by the dashboard's "View Details". */
    method HandleViewResults(result: AnalysisResult)
      requires Valid()
      modifies this
      ensures Valid() && State() == Step(old(State()), ResultViewed(result))
      ensures analysisResults == old(analysisResults)
      ensures currentResult == Some(result) && currentView == ResultsView
    {
      currentResult := Some(result);
      currentView := ResultsView;
    }

    /** The "Dashboard" navigation button. */
    method ShowDashboard()
      requires Valid()
      modifies this`currentView
      ensures Valid() && State() == Step(old(State()), DashboardClicked)
      ensures currentView == DashboardView
    {
      currentView := DashboardView;
    }

    /** The "Analyze Video" navigation button. */
    method ShowAnalyzer()
      requires Valid()
      modifies this`currentView
      ensures Valid() && State() == Step(old(State()), AnalyzerClicked)
      ensures currentView == AnalyzerView
    {
      currentView := AnalyzerView;
    }

    /** The main area as rendered from the current fields: never empty. */
    method MainPage() returns (p: Page)
      requires Valid()
      ensures p == Render(State()) && p != NoPage
    {
      if currentView == DashboardView {
        p := DashboardPage(analysisResults);
      } else if currentView == AnalyzerView {
        p := AnalyzerPage;
      } else {
        p := ResultsPage(currentResult.value);
      }
    }

    /** The analyzer's submit button: `handleAnalysis` on the form, whose
      report, when the guard lets it through, goes to
      `handleAnalysisComplete`. */
    method Submit(form: AnalyzerForm, draws: seq<real>, transcriptDraw: real, date: string)
      returns (report: Option<AnalysisResult>)
      requires Valid()
      requires |draws| == |ValidSubtopics(form.subtopics)| && AreDraws(draws)
      requires 0.0 <= transcriptDraw < 1.0
      modifies this, form`isAnalyzing
      ensures Valid()
      ensures report.Some? <==> CanSubmit(form.videoUrl, form.topic, form.subtopics)
      ensures report.Some? ==>
        report.value == Simulate(form.videoUrl, form.topic, form.subtopics, draws, transcriptDraw, date)
        && IsWellFormed(report.value)
      ensures report.Some? ==> State() == Step(old(State()), AnalysisCompleted(report.value))
      ensures report.Some? ==> !form.isAnalyzing
      ensures report.None? ==> State() == old(State()) && form.isAnalyzing == old(form.isAnalyzing)
    {
      report := form.HandleAnalysis(draws, transcriptDraw, date);
      if report.Some? {
        HandleAnalysisComplete(report.value);
      }
    }
  }
}
