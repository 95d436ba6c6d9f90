/** The records the application passes between its components
    (src/App.tsx:7-22). */
module AnalysisTypes {

  datatype Option<T> = None | Some(value: T)

  /** Coverage bucket of one subtopic. */
  datatype Status = Covered | Partial | Missing

  /** One subtopic of a report: its label, its coverage percentage, the bucket
      derived from that coverage and three placeholder keywords. */
  datatype SubtopicAnalysis = SubtopicAnalysis(
    name: string,
    coverage: int,
    status: Status,
    keywords: seq<string>)

  /** One fabricated analysis report. */
  datatype AnalysisResult = AnalysisResult(
    videoId: string,
    title: string,
    topic: string,
    overallScore: int,
    subtopics: seq<SubtopicAnalysis>,
    transcriptLength: int,
    analysisDate: string)
}
