/** The value types of an analysis result shared by the formatter, the
    feedback display and the analysis step. */
module Types {

  /** One checklist: item name to pass/fail, in `Object.entries` order. */
  type ChecklistItem = seq<(string, bool)>

  /** One evaluated safety pattern. */
  datatype Pattern = Pattern(title: string, feedback: string, checklists: seq<ChecklistItem>)

  datatype AnalysisResult = AnalysisResult(
    transcriptId: string,
    organizationId: string,
    pilotId: string,
    patterns: seq<Pattern>)
}
