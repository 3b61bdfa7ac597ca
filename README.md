# Sparring flight-transcript analyser: a Dafny model of its core

The application is a single-page front end for debriefing flights. The user
picks an organization of pilots, edits the organization's analysis prompt,
uploads a PDF holding a flight transcript and starts an analysis. The
analysis step rejects a PDF without text and builds a transcript id and a
pilot id. It then returns one fixed feedback result per organization: a
list of safety patterns, each with a title, a feedback text and checklists
of items that passed or failed. The result is shown with a grade per
pattern and can be exported as plain text. The provider loads organizations
from a GraphQL service and cleans their loosely typed `securityObs` field.
The header's selector, however, offers the static list of
`src/data/organizations.ts`, typed with the `Organization` interface of
`src/types/index.ts`, and the one chosen there becomes the selection.

The model covers, one module per source file:

- `AnalysisFormatter` (`src/utils/analysisFormatter.ts`): the plain-text
  export, its block and line layout, and parsers that read the numbered and
  ticked lines back.
- `FeedbackDisplay` (`src/components/FeedbackDisplay.tsx`): the pass/fail
  icon and the pattern grade. The grade counts passed items, rounds the
  percentage half-up and applies thresholds at 80 and 60.
- `Organizations` (`src/services/organizations.ts`):
  - the cleaning of security observations, as a method with its loop,
    proved against a specification function;
  - the organization transform;
  - the GraphQL error message and the validation of the two responses.
- `PdfAnalysis` (`src/utils/pdfAnalysis.ts`):
  - the empty-text rejection;
  - the transcript id and the default and derived pilot ids (a method that
    assigns the default and then overwrites it, as the source does);
  - the per-organization result table with its fallback.
- `AppContext` (`src/context/AppContext.tsx`): the provider's state cells as
  the fields of class `AppProvider`, with the load reconciliation, the
  failure reset, the selection setter and the theme toggle.
- `App` (`src/App.tsx`): the main screen's state as class `AppContent`,
  with:
  - the analyze guard and the busy flag;
  - alert handling, where a cancellation raises no alert;
  - the mismatch-confirmation predicate;
  - the two effects that react to a new selection and to a new result.

Supporting modules:

- `Text` models the JavaScript built-ins the code relies on: `trim`, the
  `\s` class, `join`, decimal `toString`, `padStart` and `toUpperCase`.
  It also holds `Split`, used to state the export's line layout.
- `Json` holds parsed JSON values and their truthiness.
- `Types` holds the result types.
- `Wrappers` holds `Option` and `Result`.

`JSON.parse` is a function parameter `string -> Option<Json>`, `None` where
it throws. An object's entries are in `Object.entries` order.

The analysis step returns the fixed result of the requested organization
(`src/utils/pdfAnalysis.ts:212`).

`src/App.tsx:40-55` passes a mismatch-confirmation callback as a fourth
argument, which `src/utils/pdfAnalysis.ts:88-92` does not accept. So the
confirmation is a standalone predicate, and the cancellation error is an
input outcome of `App.AppContent.HandleAnalyze`.

## Model

| member | source | states |
|---|---|---|
| Text.Trim | src/services/organizations.ts:61 | the trimmed string starts and ends with non-whitespace, and is empty exactly when the input is all whitespace |
| Text.TrimPadding | src/services/organizations.ts:61 | the input is the trimmed string with only whitespace before and after it |
| Text.TrimIdempotent | src/services/organizations.ts:70-73 | trimming an already trimmed string changes nothing |
| Text.SplitJoin | src/utils/analysisFormatter.ts:17 | splitting a line-feed join of line-feed-free parts on line feeds gives the parts back |
| Text.NatToStringRoundTrip | src/utils/pdfAnalysis.ts:105-106 | a rendered decimal numeral reads back as the number |
| Text.ReplaceWhitespaceRuns | src/utils/pdfAnalysis.ts:112 | replacing each whitespace run by `_` leaves no whitespace, never lengthens the text and empties only the empty text |
| Text.ReplaceWhitespaceRunsAt | src/utils/pdfAnalysis.ts:112 | a maximal whitespace run between two pieces becomes exactly one `_`, and the pieces on either side are replaced independently |
| Text.ReplaceWhitespaceRunsOfWordOnly | src/utils/pdfAnalysis.ts:112 | text without whitespace is left unchanged |
| AnalysisFormatter.ItemLines | src/utils/analysisFormatter.ts:15-17 | one item line per checklist entry, in entry order, `    - [x] name` or `    - [ ] name` |
| AnalysisFormatter.ChecklistTexts | src/utils/analysisFormatter.ts:13-20 | one block per checklist, the k-th introduced by `  Checklist <k+1>:` |
| AnalysisFormatter.PatternTexts | src/utils/analysisFormatter.ts:12-27 | one block per pattern, in order, numbered from 1 |
| AnalysisFormatter.FormatAnalysisResult | src/utils/analysisFormatter.ts:3-30 | the text opens with the heading and a blank line and contains the labelled transcript, organization and pilot ids |
| AnalysisFormatter.HeaderJoin | src/utils/analysisFormatter.ts:4-10 | the five header blocks, the last empty, joined by blank lines |
| AnalysisFormatter.FormatBlocks | src/utils/analysisFormatter.ts:29 | the output is the header text followed, when there are patterns, by a blank line and the pattern blocks separated by blank lines |
| AnalysisFormatter.FormatWithoutPatterns | src/utils/analysisFormatter.ts:4-29 | with no patterns the output is exactly the four labelled lines separated by blank lines, plus the trailing separator before the empty block |
| AnalysisFormatter.FormatLines | src/utils/analysisFormatter.ts:3-30 | for single-line fields, the output's lines are exactly: heading, transcript, organization and pilot lines between blank lines, then per pattern a blank line, its numbered title, its feedback line, and per checklist its heading and item lines |
| AnalysisFormatter.FormatMentions | src/utils/analysisFormatter.ts:12-29 | every pattern title, feedback text and checklist item name occurs in the output |
| AnalysisFormatter.ItemLineRoundTrip | src/utils/analysisFormatter.ts:16 | an item line parses back to its name and status |
| AnalysisFormatter.TitleLineRoundTrip | src/utils/analysisFormatter.ts:23 | a title line parses back to the one-based index and the title |
| AnalysisFormatter.ChecklistHeadingRoundTrip | src/utils/analysisFormatter.ts:18 | a checklist heading parses back to the one-based checklist number |
| FeedbackDisplay.GetStatusIcon | src/components/FeedbackDisplay.tsx:9-15 | the pass icon exactly for true, the fail icon exactly for false |
| FeedbackDisplay.IconAgreesWithExport | src/components/FeedbackDisplay.tsx:9-15 | the icon shows pass exactly when the exported item line is ticked |
| FeedbackDisplay.CountPassed | src/components/FeedbackDisplay.tsx:20 | at most the number of items; equal to it exactly when all pass, zero exactly when none passes |
| FeedbackDisplay.TotalItems | src/components/FeedbackDisplay.tsx:18 | the total is zero exactly when every checklist is empty, and never below the size of any one checklist |
| FeedbackDisplay.PassedItems | src/components/FeedbackDisplay.tsx:18-21 | passed items never exceed the total; equal exactly when every item passes; zero exactly when none does |
| FeedbackDisplay.CountPassedConcat | src/components/FeedbackDisplay.tsx:20 | the passed count of two joined checklists is the sum of their counts |
| FeedbackDisplay.TotalItemsConcat | src/components/FeedbackDisplay.tsx:18 | the total over two runs of checklists is the sum of their totals |
| FeedbackDisplay.PassedItemsConcat | src/components/FeedbackDisplay.tsx:18-21 | the passed count over two runs of checklists is the sum of theirs |
| FeedbackDisplay.Percentage | src/components/FeedbackDisplay.tsx:23 | no number (NaN) exactly when there are no items; otherwise the integer nearest to 100·passed/total, halves rounded up, at most 100 |
| FeedbackDisplay.GradeOf | src/components/FeedbackDisplay.tsx:25-27 | Excellent from 80, Partial from 60 below 80, Critical below 60 and for NaN |
| FeedbackDisplay.GetPatternStatus | src/components/FeedbackDisplay.tsx:17-28 | always one of the three colour/label pairs, the one of the pattern's grade |
| FeedbackDisplay.GradeBoundaries | src/components/FeedbackDisplay.tsx:25-26 | 80 is Excellent, 79 and 60 are Partial, 59 and NaN are Critical |
| FeedbackDisplay.GradeThresholds | src/components/FeedbackDisplay.tsx:23-27 | the grade in terms of the counts: Excellent exactly when 200·passed ≥ 159·total > 0, Critical exactly when total is 0 or 200·passed < 119·total |
| FeedbackDisplay.GradeMonotone | src/components/FeedbackDisplay.tsx:23-27 | for a fixed total, more passed items never give a worse grade |
| FeedbackDisplay.NoItemsIsCritical | src/components/FeedbackDisplay.tsx:23-27 | a pattern without checklist items is red/Crítico |
| FeedbackDisplay.AllOrNothing | src/components/FeedbackDisplay.tsx:23-27 | all items passed gives Excellent, none passed gives Critical |
| Organizations.StringItems | src/services/organizations.ts:68-71 | the kept elements of an array are clean (trimmed, non-blank) and no more numerous than the elements |
| Organizations.StringItemsMembers | src/services/organizations.ts:68-71 | a string is kept exactly when it is the trimmed form of a non-blank string element |
| Organizations.StringItemsConcat | src/services/organizations.ts:68-71 | the kept elements keep the original order |
| Organizations.EntryValues | src/services/organizations.ts:66-74 | a raw value contributes only clean strings |
| Organizations.Collect | src/services/organizations.ts:58-79 | never more keys than raw entries; `CollectKeys` and `CollectLastWins` say which keys and which lists |
| Organizations.CollectWellFormed | src/services/organizations.ts:58-79 | every collected key is trimmed and non-blank, every list is non-empty and every element is trimmed and non-blank |
| Organizations.CollectKeys | src/services/organizations.ts:60-78 | a key is present exactly when some raw key trims to it and its value contributes a non-empty list |
| Organizations.CollectLastWins | src/services/organizations.ts:60-78 | the list under a key is that of the last raw entry storing under it; later entries with nothing to store leave it |
| Organizations.CollectAsWritten | src/services/organizations.ts:77 | as the code behaves on a plain object, no `__proto__` entry ever appears |
| Organizations.CollectAsWrittenLosesProtoKey | src/services/organizations.ts:58-79 | the code's observations are the intended ones minus the `__proto__` entry, and agree with them on every other key |
| Organizations.ProtoKeyEntryLost | src/services/organizations.ts:77 | for `{"__proto__": ["x"]}` the intended observations hold the entry, the code's are empty |
| Organizations.Normalized | src/services/organizations.ts:36-82 | the result is always well-formed |
| Organizations.NormalizeSecurityObservations | src/services/organizations.ts:36-82 | the method computes exactly `Normalized` |
| Organizations.CollectEntries | src/services/organizations.ts:60-79 | the loop over the entries stores exactly `Collect` of them |
| Organizations.EntryValuesOf | src/services/organizations.ts:66-74 | the callback's list for one raw value is `EntryValues` of it |
| Organizations.NormalizedRejects | src/services/organizations.ts:39-56 | a falsy value, an unparsable string and anything parsing or being other than a plain object give `{}` |
| Organizations.NormalizedTextOrObject | src/services/organizations.ts:43-52 | an object and its JSON text are cleaned the same way |
| Organizations.TransformOrganization | src/services/organizations.ts:84-95 | all other fields copied unchanged; `securityObs` replaced by its well-formed cleaned form |
| Organizations.ErrorMessages | src/services/organizations.ts:120 | every kept message is non-empty |
| Organizations.ErrorMessagesMembers | src/services/organizations.ts:120 | a message is kept exactly when it is non-empty and some error carries it |
| Organizations.ErrorMessagesConcat | src/services/organizations.ts:120 | the messages of two runs of errors are those of the first run followed by those of the second, in order |
| Organizations.ErrorMessage | src/services/organizations.ts:119-122 | the non-empty messages joined by a spaced vertical bar, each of them part of it, or the fallback exactly when there is none (the prompt update uses the same join at lines 161-164) |
| Organizations.FetchOrganizationsResult | src/services/organizations.ts:117-126 | fails exactly on a non-empty `errors` list, with the joined message; otherwise every listed organization transformed, in order, none when the list is missing |
| Organizations.UpdateOrganizationPromptResult | src/services/organizations.ts:159-172 | succeeds exactly when there are no errors and the returned prompt is a string, returning it; otherwise the joined error message or the fixed invalid-response message |
| PdfAnalysis.ExtractText | src/utils/pdfAnalysis.ts:27-82 | succeeds exactly on present, non-blank text and then returns it unchanged; missing or blank text fails with the fixed message; reader and parser failures are passed on |
| PdfAnalysis.TranscriptId | src/utils/pdfAnalysis.ts:105 | `TRANSCRIPT_` followed by decimal digits whose value is the timestamp |
| PdfAnalysis.TranscriptIdInjective | src/utils/pdfAnalysis.ts:105 | distinct timestamps give distinct transcript ids |
| PdfAnalysis.RandomIndex | src/utils/pdfAnalysis.ts:106 | the scaled draw lies in 0..999 |
| PdfAnalysis.DefaultPilotId | src/utils/pdfAnalysis.ts:106 | `PILOT_` followed by exactly three digits whose value is the draw |
| PdfAnalysis.NormalizePilotName | src/utils/pdfAnalysis.ts:112 | no whitespace, no lower-case ASCII letter, never longer, empty only for the empty name |
| PdfAnalysis.NormalizePilotNameAt | src/utils/pdfAnalysis.ts:112 | a maximal whitespace run becomes one `_` and the two sides are normalized on their own |
| PdfAnalysis.NormalizePilotNameOfWord | src/utils/pdfAnalysis.ts:112 | a name without whitespace is only upper-cased |
| PdfAnalysis.NormalizePilotNameIdempotent | src/utils/pdfAnalysis.ts:112 | normalizing a normalized id changes nothing |
| PdfAnalysis.PilotName | src/utils/pdfAnalysis.ts:109-113 | a name comes only from a parsed object whose `pilot` is that non-empty string; when the text parses but gives no name, no string `pilot` is non-empty |
| PdfAnalysis.PilotId | src/utils/pdfAnalysis.ts:106-116 | never empty; without a name, `PILOT_` and three digits whose value is the draw; with one, a whitespace-free id no longer than the name |
| PdfAnalysis.DerivePilotId | src/utils/pdfAnalysis.ts:106-116 | the method's default-then-overwrite computes exactly `PilotId` |
| PdfAnalysis.PilotIdCases | src/utils/pdfAnalysis.ts:109-116 | a non-empty string `pilot` in the parsed object gives its normalized form; a parse failure or a non-object gives the default |
| PdfAnalysis.PilotIdShape | src/utils/pdfAnalysis.ts:106-113 | the pilot id is non-empty, without whitespace and without lower-case ASCII letters |
| PdfAnalysis.OwnProperty | src/utils/pdfAnalysis.ts:212 | an own property is found exactly when an entry has that key, and it is that entry's value |
| PdfAnalysis.SelectResult | src/utils/pdfAnalysis.ts:212 | the own property when present, otherwise the `SPARRING001` one |
| PdfAnalysis.MockResult | src/utils/pdfAnalysis.ts:119-212 | the result carries the call's transcript, organization and pilot ids; AEROLINK001 gets its 2 patterns, FLYSAFE001 its 3, every other id the 3 of SPARRING001 |
| PdfAnalysis.MemberAccess | src/utils/pdfAnalysis.ts:212 | an own result exactly for own keys; an inherited member exactly for the names of `Object.prototype` members without an own entry |
| PdfAnalysis.LookupAsWritten | src/utils/pdfAnalysis.ts:212 | the own entry when there is one; for an `Object.prototype` member name without one, that member; otherwise the `SPARRING001` access, which is never undefined when that entry exists |
| PdfAnalysis.PrototypeKeyEscapesFallback | src/utils/pdfAnalysis.ts:212 | for an id naming an inherited member, the lookup as written yields that member while the intended lookup falls back to SPARRING001 |
| PdfAnalysis.LookupsAgreeOffPrototype | src/utils/pdfAnalysis.ts:212 | for every other id both lookups give the same result |
| PdfAnalysis.Analysis | src/utils/pdfAnalysis.ts:88-219 | success exactly on non-blank text, with the argument's organization id and the timestamp's transcript id; a read failure gives the fixed read error, a parser throw is passed on, and missing or blank text gives the no-text error |
| PdfAnalysis.AnalyzePdfWithExtraction | src/utils/pdfAnalysis.ts:88-219 | the method computes exactly `Analysis` |
| PdfAnalysis.AnalysisProperties | src/utils/pdfAnalysis.ts:93-217 | success exactly on non-blank text, with the argument's organization id, the timestamp's transcript id and the derived pilot id; the cancellation error comes out only when the PDF parser threw it |
| AppContext.FindById | src/context/AppContext.tsx:35 | the index of the first organization with the id, none exactly when no organization has it |
| AppContext.ReconcileSelection | src/context/AppContext.tsx:29-42 | none exactly for an empty list; otherwise a member of the list: the first one with the current selection's id when there is one, else the first |
| AppContext.ReconcileIdempotent | src/context/AppContext.tsx:29-42 | reconciling the reconciled selection against the same list keeps it |
| AppContext.AppProvider.constructor | src/context/AppContext.tsx:12-21 | no organizations, no selection, no result, loading, and the saved theme flag |
| AppContext.AppProvider.LoadOrganizations | src/context/AppContext.tsx:23-53 | a success stores the list and reconciles the selection; a failure empties both; loading is false afterwards and the selection is listed |
| AppContext.AppProvider.SetSelectedOrganization | src/context/AppContext.tsx:72-75 | the selection is set and the result cleared, nothing else changes |
| AppContext.AppProvider.ToggleDarkMode | src/context/AppContext.tsx:64-66 | the theme flag is negated, so two toggles restore it, nothing else changes |
| AppContext.AppProvider.SetAnalysisResult | src/context/AppContext.tsx:20 | only the result changes |
| App.ContinueAnalysis | src/App.tsx:45-53 | asks only when the PDF names a non-empty company different from the selected name, then follows the answer; otherwise continues |
| App.ConfirmationMessage | src/App.tsx:47-49 | the question names both the PDF's company and the selected organization |
| App.AlertFor | src/App.tsx:58-64 | no alert exactly for the cancellation error; otherwise the fixed prefix and the error's message, or the fixed unknown-error text |
| App.AppContent.constructor | src/App.tsx:13-17 | no file, empty prompt, not analyzing, modal closed |
| App.AppContent.HasRequiredData | src/App.tsx:70 | a file, a selected organization and a prompt with a non-whitespace character |
| App.AppContent.CanAnalyze | src/App.tsx:71 | exactly the required data and no analysis running |
| App.AppContent.StartAnalysis | src/App.tsx:33-37 | starts exactly when the data is there, raising the busy flag; otherwise nothing changes |
| App.AppContent.FinishAnalysis | src/App.tsx:56-67 | a completed analysis stores its result; a thrown value gives its alert and keeps the result; the busy flag is down in every case |
| App.AppContent.HandleAnalyze | src/App.tsx:32-68 | without the required data nothing changes; otherwise the busy flag ends down, success stores the result, errors leave it and alert unless cancelled; the file, prompt, modal flag, selection, organization list, theme and loading flag are untouched |
| App.AppContent.SelectedOrganizationEffect | src/App.tsx:19-24 | with a selection, the prompt becomes its prompt and the result is cleared; without one nothing changes; the file, busy and modal flags, selection, organization list, theme and loading flag are untouched |
| App.AppContent.AnalysisResultEffect | src/App.tsx:26-30 | a result opens the modal; clearing it does not close it |
| App.AppContent.ChooseOrganization | src/App.tsx:19-24 | choosing an organization selects it, takes its prompt and leaves no result; the file, busy and modal flags, organization list, theme and loading flag are untouched |
| App.AppContent.AnalyzeAndShow | src/App.tsx:26-68 | the result effect runs only when the result changed: a completed started analysis ends with its result stored and the modal open; in every other case the modal flag keeps its value; errors and the missing-data case behave as in `HandleAnalyze`, and the provider's other state is untouched |

## Left out

- Reading the file and the PDF parser (`FileReader`, `pdf-parse`, the pdf.js worker) are foreign I/O. Their outcome is the input `PdfRead`.
- All console output is left out. So is the metadata-logging parse in the extraction, which changes nothing.
- `Date.now()` and `Math.random()` are parameters: a natural-number timestamp and a real draw in [0, 1).
- `JSON.parse` is an abstract parameter. The parsed object's keys are taken as distinct, as the parser produces them.
- `trim` and `\s` use the ECMAScript whitespace set. `toUpperCase` is modelled on ASCII letters only, without full Unicode case mapping.
- The network side of the organization service (the axios calls, the endpoint, the queries) is left out. The model starts from the decoded response body; a transport error is a `Failure` input to `LoadOrganizations`.
- `FeedbackDisplay.Percentage`: does not model floating-point `Math.round` on `passed / total * 100`. It uses the exact half-up integer formula, and total 0 stands for NaN.
- The `localStorage` persistence and the `dark` class on the document element are browser I/O. The constructor takes the saved flag as a boolean.
- The `window.confirm` answer, the PDF's company and the analysis outcome are inputs. The alert is an output value of the handler.
- Asynchronous sequencing and React re-rendering are reduced to one sequential transition per handler. `HandleAnalyze` is also split into its start and its continuation.
- A reload that keeps the same organization still yields a fresh object, so the selection effect fires again. The model leaves the effect to be called.
- Everything in the export modal is left out: the PDF document, the pagination on a floating-point page height, the clipboard and the timers. So are the presentational components and the contents of the static organization list.
- The selection can hold either kind of organization: a record the service built (through `loadOrganizations`) or an entry of the static list in `src/data/organizations.ts`, which the header's selector offers (`src/components/Header.tsx:34-37`) and which is typed with the `Organization` interface of `src/types/index.ts`. The model types the selection as `Organizations.Organization`. The handlers read only its id, name and prompt, which both kinds have. The interface's other fields (`averageFlightHours`, `fleet`, `safetyStandards`, `checklists`, `observations`) appear only in the presentational cards (`src/components/OrganizationCards.tsx:13-31`) and are not modelled.
- Organizations.Collect: stores a list under the key `__proto__` as an own entry. The code's assignment at `src/services/organizations.ts:77` runs the inherited `__proto__` setter instead: the list becomes the object's prototype and no entry appears. `Organizations.CollectAsWritten` models the code's behaviour (see Findings). The prototype change itself is not modelled.
- Organizations.NormalizeSecurityObservations: through `Organizations.CollectEntries`, stores `__proto__` like any other key, as `Organizations.Collect` does, for the same reason.
- Organizations.CollectEntries: stores `__proto__` like any other key, as `Organizations.Collect` does, for the same reason.
- PdfAnalysis.AnalyzePdfWithExtraction: builds on the corrected lookup `PdfAnalysis.MockResult`, as does `PdfAnalysis.Analysis`. For an organization id naming an inherited `Object.prototype` member they return the SPARRING001 result. The code at `src/utils/pdfAnalysis.ts:212` returns the inherited member instead, which `PdfAnalysis.LookupAsWritten` models (see Findings).

## Findings

| source | as written | input that shows it | evidently intended | confidence | as-written member | corrected member |
|---|---|---|---|---|---|---|
| src/utils/pdfAnalysis.ts:212 | `mockResults[organizationId] \|\| mockResults['SPARRING001']` also finds members that every plain object inherits, and these are truthy | organization id `toString` (likewise `constructor`, `valueOf`, `__proto__`): the lookup as written returns the inherited function instead of an analysis result | every id without its own entry falls back to the SPARRING001 result | not executed | PdfAnalysis.PrototypeKeyEscapesFallback | PdfAnalysis.MockResult |
| src/services/organizations.ts:77 | `observations[key] = values` on the plain object `{}`: for the key `__proto__` this calls the setter every plain object inherits, which replaces the prototype with the list instead of adding an entry | `securityObs` equal to `{"__proto__": ["x"]}` (or with the key padded by spaces): the code returns an object with no entries whose prototype is `["x"]` | every clean key with a non-empty list becomes an own entry, `__proto__` included | not executed | Organizations.ProtoKeyEntryLost | Organizations.CollectKeys |
