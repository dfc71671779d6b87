# Clinical-assessment admin: verified model of its pure logic

This Dafny project models the parts of the clinical-assessment administration
application that carry behaviour of their own, as opposed to CRUD and UI glue:

- **CSV report** (`csv_report.dfy`, module `CsvReport`). `jsonToCsv` turns a list of
  records into comma-separated text. The header is the first record's keys. A null
  or undefined value becomes an empty cell. A value that contains a comma is wrapped
  in double quotes, but quotes inside the value are never doubled. The comment at
  `server/routes/reports.js:19` says quotes are handled; the code does not handle them,
  and the model follows the code. The `/detailed-data` handler flattens the
  questionnaires into one six-column record per (questionnaire, question) pair. Its
  nested loops are the method `Flatten`, proved equal to the function `Flattened`.
- **Question schema** (`question_schema.dfy`, module `QuestionSchema`). The text is
  required and trimmed. The type is one of four values; an absent type defaults to
  `text`, while a `null` one is kept and rejected.
  `options` is required exactly for the three choice types.
- **Question editor** (`question_editor.dfy`, module `Editor`). The class
  `QuestionEditor` holds the form's `text`, `questionType` and `options`. It has one
  method per handler, and every handler keeps at least one option. The saved payload
  drops blank options, and drops all of them for a non-choice type. The editor writes
  its own list of choice types, separately from the schema's, and a lemma shows that
  the two lists agree.
- **Dashboard patient filter** (`admin_dashboard.dfy`, module `AdminDashboard`).
  A risk score maps to `low`, `moderate` or `high`, with thresholds at 40 and 70.
  Patients are filtered by risk level and status, and `all` means no constraint.

Supporting modules: `Wrappers` (Option, Result), `Sequences` (`join`, one-character
`split`, `filter`, flat map, subsequences, character counts) and `Whitespace` (`trim` over the
ECMAScript white-space and line-terminator characters).

The code does not say what Mongoose's `required` means for an array. For an array,
`required` is modelled as "present and non-empty": a choice question is meant to
offer something to choose from. The line on `required` under "Left out" says how this
depends on the Mongoose version.

## Model

| member | source | states |
|---|---|---|
| `CsvReport.Lookup` | server/routes/reports.js:20 | `row[key]` is the value of the first field with that key, and absent (like undefined) when no field has the key; a present value is one of the record's values |
| `CsvReport.JsonToCsv` | server/routes/reports.js:11-28 | the text is empty exactly when the input is null or empty (null and `[]` both give `''`); otherwise it begins with the first record's keys joined by commas, then a newline |
| `CsvReport.Cell` | server/routes/reports.js:20-24 | one value's text; its contract is carried by `CellQuotedIffComma`, `MissingOrNullGivesEmptyCell`, `QuotesNotEscaped` and `ReadCellInverse` |
| `CsvReport.CellsPerLine` | server/routes/reports.js:17-25 | a written data line holds one separating comma fewer than the first record has keys, plus the commas inside its quoted cells; with no comma in any value, exactly keys − 1 commas |
| `CsvReport.MissingOrNullGivesEmptyCell` | server/routes/reports.js:18-20 | a key missing from a later record, or a null value, gives an empty cell |
| `CsvReport.CellQuotedIffComma` | server/routes/reports.js:21-23 | a value is wrapped in double quotes exactly when it contains a comma, and is written verbatim otherwise |
| `CsvReport.QuotesNotEscaped` | server/routes/reports.js:19-23 | quoting adds exactly two quote characters, so embedded quotes are never escaped |
| `CsvReport.ReadCellInverse` | server/routes/reports.js:20-24 | stripping the quotes from a quoted cell gives back the value, with null shown as empty |
| `CsvReport.CsvLines` | server/routes/reports.js:15-27 | when no header key or value written under one holds a newline, splitting the text on newlines gives the header line, then one data line per record in input order |
| `CsvReport.DataLineRoundTrip` | server/routes/reports.js:17-25 | when no value written under a header key holds a comma, splitting a data line on commas gives the record's values in header-key order |
| `CsvReport.CsvRoundTrip` | server/routes/reports.js:11-28 | when no header key or value written under one holds a comma or newline, reading the text back gives the first record's keys, then each record's values in key order, with null as empty |
| `CsvReport.WorkedExampleLines` | server/routes/reports.js:15-26 | `[{a:"x,y", b:null}]` gives the lines `a,b` and `"x,y",` |
| `CsvReport.WorkedExample` | server/routes/reports.js:11-28 | `[{a:"x,y", b:null}]` serialises to `a,b\n"x,y",` |
| `CsvReport.Flattened` | server/routes/reports.js:38-50 | the flattened records; specified through `Flatten`, `FlattenedAt`, `FlattenedLength`, `FlattenedConcat` and `FlattenedKeys` |
| `CsvReport.Flatten` | server/routes/reports.js:38-50 | the nested loops push exactly the records of `Flattened`: questionnaire order, then question order |
| `CsvReport.FlattenedAt` | server/routes/reports.js:39-49 | record number (questions before questionnaire i) + j is the record of question j of questionnaire i, and there are exactly as many records as pairs |
| `CsvReport.FlattenedLength` | server/routes/reports.js:38-50 | there are as many records as (questionnaire, question) pairs |
| `CsvReport.FlattenedConcat` | server/routes/reports.js:39-50 | flattening two lists of questionnaires one after the other gives the two results concatenated |
| `CsvReport.EmptyQuestionnaireAddsNothing` | server/routes/reports.js:40-49 | a questionnaire with no questions contributes no record |
| `CsvReport.ReportRow` | server/routes/reports.js:41-48 | the record pushed for one question; its contract is `ReportRowShape` |
| `CsvReport.ReportRowShape` | server/routes/reports.js:41-48 | a report record has the six columns in fixed order, no null value, and the options joined by `"; "` |
| `CsvReport.FlattenedKeys` | server/routes/reports.js:41-48 | every flattened record has the six columns in order |
| `CsvReport.ReportStartsWithHeader` | server/routes/reports.js:38-52 | the report is empty exactly when there is no question; otherwise its header is the six column names joined by commas |
| `CsvReport.DetailedData` | server/routes/reports.js:34-56 | the handler's text is the serialised flattened records, empty iff there are no questions, and otherwise starts with the six-column header |
| `QuestionSchema.OptionsRequired` | server/models/Question.js:18-20 | the `options.required` function; its contract is `OptionsRequiredExactlyForChoiceTypes` and, against the editor, `Editor.ChoiceTypesShared` |
| `QuestionSchema.Cast` | server/models/Question.js:4-16 | trimming, defaulting of absent fields and keeping of `null`; its effect is stated by the stored value in `ValidateAccepts` and by `NullTypeIsRejected` |
| `QuestionSchema.Violations` | server/models/Question.js:4-21 | the failing paths; their contract is `ValidateRejects` |
| `QuestionSchema.Validate` | server/models/Question.js:3-21 | a rejection names at least one path; an accepted question is the input after trimming and defaulting |
| `QuestionSchema.ValidateAccepts` | server/models/Question.js:3-21 | a question is accepted iff its text is given (not absent, not `null`) and not blank, its type is absent (defaulted to `text`) or given and one of the four, and a choice type has a non-empty option list; the text is stored trimmed |
| `QuestionSchema.ValidateRejects` | server/models/Question.js:4-21 | a rejection names the text iff it is absent, `null` or blank, the type iff it is `null` or outside the enumeration, and the options iff a choice type lacks a given, non-empty list |
| `QuestionSchema.ValidatedIsWellFormed` | server/models/Question.js:4-8 | an accepted question has non-empty text that trims to itself, a valid type, and options whenever its type needs them |
| `QuestionSchema.OptionsRequiredExactlyForChoiceTypes` | server/models/Question.js:15-21 | options are required exactly for the enumerated types other than `text` |
| `QuestionSchema.ChoiceQuestionNeedsOptions` | server/models/Question.js:15-21 | a `multiple-choice` question with an empty option list is rejected on `options` alone |
| `QuestionSchema.NullTypeIsRejected` | server/models/Question.js:9-14 | a `null` type is not defaulted and fails on `questionType` alone, while an absent type is defaulted to `text` and accepted |
| `QuestionSchema.TextQuestionNeedsNoOptions` | server/models/Question.js:9-21 | a question with no type and no options is stored as a `text` question with no options |
| `Whitespace.Trim` | server/models/Question.js:7 | `String.prototype.trim`; its contract is `TrimIsSlice`, `TrimIdempotent` and `TrimEmptyIffBlank` |
| `Whitespace.TrimStartSpec` | server/models/Question.js:7 | leading trim keeps a suffix, drops only white space, and stops at a non-space |
| `Whitespace.TrimEndSpec` | server/models/Question.js:7 | trailing trim keeps a prefix, drops only white space, and stops at a non-space |
| `Whitespace.TrimIsSlice` | server/models/Question.js:7 | trim keeps a contiguous slice, removes only white space around it, and leaves none at either end |
| `Whitespace.TrimIdempotent` | server/models/Question.js:7 | trimming a trimmed text changes nothing |
| `Whitespace.TrimEmptyIffBlank` | src/components/ui/QuestionEditor.jsx:45 | `opt.trim() !== ''` holds exactly when the option is not all white space |
| `Editor.OrElse` | src/components/ui/QuestionEditor.jsx:14-15 | the `||` fallback for text and type; its effect is stated by `QuestionEditor.Reset` |
| `Editor.SavedOptions` | src/components/ui/QuestionEditor.jsx:45 | the options put into the payload; its contract is `SavedOptionsSpec` |
| `Editor.QuestionEditor.constructor` | src/components/ui/QuestionEditor.jsx:8-10 | the form starts with empty text, type `text` and one empty option |
| `Editor.QuestionEditor.Reset` | src/components/ui/QuestionEditor.jsx:12-23 | loads text and type (empty values fall back to `''` and `text`), and options when non-empty, else `['']`; without a question it resets the form; options are never empty |
| `Editor.QuestionEditor.SetText` | src/components/ui/QuestionEditor.jsx:72 | sets the text and nothing else |
| `Editor.QuestionEditor.SetQuestionType` | src/components/ui/QuestionEditor.jsx:82 | sets the type and nothing else |
| `Editor.QuestionEditor.ChangeOption` | src/components/ui/QuestionEditor.jsx:25-29 | same length, position `index` holds the new value, every other position unchanged |
| `Editor.QuestionEditor.AddOption` | src/components/ui/QuestionEditor.jsx:31-33 | appends exactly one empty option after the existing ones |
| `Editor.QuestionEditor.RemoveOption` | src/components/ui/QuestionEditor.jsx:35-39 | with one option nothing changes; otherwise exactly the option at `index` is removed and the order of the rest is kept; at least one option remains |
| `Editor.QuestionEditor.Payload` | src/components/ui/QuestionEditor.jsx:41-48 | text and type as they are; no options for a non-choice type; for a choice type, an in-order subsequence of the options holding every copy of each non-blank option and no blank one |
| `Editor.SavedOptionsSpec` | src/components/ui/QuestionEditor.jsx:41-48 | saved options are `[]` for a non-choice type; otherwise they are an in-order subsequence of the options in which each non-blank option occurs as often as in the input and each blank one never |
| `Editor.ChoiceTypesShared` | src/components/ui/QuestionEditor.jsx:45 | the editor's own list of choice types (also used at line 85) and the schema's separately written list at `server/models/Question.js:19` accept exactly the same types |
| `Editor.SavedPayloadAccepted` | src/components/ui/QuestionEditor.jsx:41-48 | the schema accepts a saved payload iff its text is not blank, its type is one of the four, and a choice type has at least one non-blank option |
| `AdminDashboard.RiskLevel` | src/pages/admin-dashboard/index.jsx:169 | `low` iff score < 40, `moderate` iff 40 ≤ score < 70, `high` iff score ≥ 70 |
| `AdminDashboard.Keep` | src/pages/admin-dashboard/index.jsx:168-175 | the per-patient test; its contract is the soundness and multiplicity clauses of `FilterPatientsSpec` |
| `AdminDashboard.FilterPatients` | src/pages/admin-dashboard/index.jsx:167-176 | `handleFilterChange`'s filtering; its contract is `FilterPatientsSpec`, with `AllFiltersKeepEverything` and `UnknownRiskLevelKeepsNobody` |
| `AdminDashboard.AllFiltersKeepEverything` | src/pages/admin-dashboard/index.jsx:167-176 | with both filters `all`, the result equals the input |
| `AdminDashboard.FilterPatientsSpec` | src/pages/admin-dashboard/index.jsx:167-176 | the result is an in-order subsequence of the input; each kept patient matches the risk level and the status, unless the filter is `all`; a patient meeting both conditions occurs as often as in the input, any other patient never |
| `AdminDashboard.UnknownRiskLevelKeepsNobody` | src/pages/admin-dashboard/index.jsx:168-171 | a risk-level filter that is not `all` and not one of the three levels keeps nobody |

## Left out

- Document-store access (`Questionnaire.find().populate`, `save`, `deleteOne`): the report handler takes the populated questionnaires as its parameter and returns the text. Headers, the attachment name and the error path that answers 500 are not modelled.
- `String(x)` coercion of arbitrary JavaScript values: values arrive as already converted optional strings, and identifiers as strings.
- `CsvReport.Lookup`: a JavaScript object cannot repeat a key; a record here can, and the first field with the key wins. Header keys are assumed not to name inherited `Object.prototype` members: a record lacking its own `toString` would yield the inherited function and write its source text. Records are assumed to be non-null objects: a null record makes `Object.keys` or `row[key]` throw. Neither case can arise from `/detailed-data`, whose records are object literals with six fixed keys.
- `QuestionSchema.Validate`: a `null` option list on a non-choice type is accepted and stored here as the empty list, where Mongoose keeps `null`.
- Mongoose's `required` on arrays is modelled as "present and non-empty". Under Mongoose 5 and later an empty array satisfies `required`, so the Mongoose version decides which rule holds, and that version is not part of this model. Database-enforced uniqueness and timestamps are not modelled either.
- `Editor.QuestionEditor.ChangeOption`: requires `index < |options|`, since the form only passes indices of existing option fields. An out-of-range index would leave a hole in the JavaScript array, and that is not modelled.
- The editor's `onSave` and `onClose` callbacks, its rendering, and the language-dependent labels. `Payload` stops at the value handed to `onSave`.
- `Whitespace.Trim` strips a fixed set of characters: the ECMAScript WhiteSpace and LineTerminator characters.
- `AdminDashboard.RiskLevel`: scores are integers. A fractional score goes through the same comparisons (39.5 is `low`) but is not modelled. A missing or NaN score makes both comparisons false, so the source places it in `high`; that case is not modelled either.
- The dashboard's `setFilters`/`setFilteredPatients` state setters, its mock patient data, and the blob download in `handleDownloadDetailedReport`. The filter is the function `FilterPatients`.
- Model training and analysis processes, their scripts, the settings store, the mock metrics route and all other screens are not part of this model.
