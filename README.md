# Beraca Report: a verified model of the report editor's core

The editor is a single-page tool for writing a church department's quarterly
report. One in-memory record, the report, holds 19 fields:
- the period, year, title and department;
- the manager's name and contact;
- an introduction;
- a table of activities;
- four text lists (progress, impacts, challenges, recommendations);
- the signature details;
- a cover theme.

Every edit reaches the record through one entry point, a shallow merge of a
partial record (`updateData`). The record is drawn as three A4 page
containers: a cover in one of twelve designs, the main page, and the closing
page. It is exported as JSON, CSV, PDF and Word, and can be re-imported
from JSON.

The project models that core as Dafny values. Each part is named after the
source file it models:

- `Types` (types.ts) covers:
  - the activity row;
  - the twelve cover themes and their stored names;
  - the report record, read through a generic field view
    `Get(r, f)` over a 19-constructor `Field` enumeration;
  - the template `INITIAL_DATA`.
- `Gateway` (App.tsx) covers:
  - `updateData` as `Merge` of a `Patch`: a record of 19 optional fields, i.e. `Partial<ReportData>`;
  - the one-field patches the inputs send;
  - JSON import onto the template, the JSON snapshot, and reset.
- `Form` (components/ReportForm.tsx) covers:
  - edits of activity rows, by id;
  - edits of the four lists, by position;
  - the period auto-fill effect;
  - the two assistant branches (introduction and analysis);
  - the cover-theme picker.
- `Preview` (components/ReportPreview.tsx) covers:
  - the layout as a pure function to three pages;
  - section visibility;
  - the cover dispatch with its default branch;
  - table numbering;
  - the preview's own edit handlers.
- `Csv` and `Export` (App.tsx) cover the download handlers:
  - file names;
  - the CSV text, built by a loop method and read back by an independent
    delimiter-aware reader;
  - the PDF export, a loop over page regions driving a page-builder object
    (`PdfBuilder`) that is modelled as a class.

What comes from outside the program enters as parameters:
- the clock read when the template is built (`loadDate`);
- the id of a new activity row (`Date.now()` at the time of the click);
- the assistant's reply (`None` when the call fails or no key is set);
- what `JSON.parse` made of a file or of an assistant answer;
- whether the user confirmed a reset;
- what the page capture produced.

A reader of the exported file gets back every text exactly as typed. Text
fields are quoted, and inner quotes are doubled. The reader's round trip
(`Export.CsvRoundTrip`) shows that every activity text comes back exactly as
typed, even when it holds `;`, line feeds or quotes. Its row number also
comes back.

## Model

| member | source | states |
|---|---|---|
| Types.SetText | components/ReportForm.tsx:75 | `{ ...act, [field]: value }` writes one of the five text fields and keeps the id and the other four |
| Types.ActivityExtensional | types.ts:2-9 | an activity is determined by its id and its five text fields |
| Types.ActivityFieldsComplete | types.ts:2-9 | the editable keys are exactly five distinct fields |
| Types.ParseTheme | components/ReportPreview.tsx:207-401 | a stored string selects a theme only if it is that theme's name |
| Types.ParseThemeName | types.ts:11-23 | every theme's name selects that theme |
| Types.ThemesDistinct | types.ts:11-23 | there are twelve themes, every theme is listed and no two themes share a name |
| Types.ReportExtensional | types.ts:25-45 | a report is determined by the values of its 19 fields |
| Types.GetTextView | types.ts:25-45 | helper of Types.ReportExtensional: the field view reads the title, period and contact fields |
| Types.GetListView | types.ts:25-45 | helper of Types.ReportExtensional: the field view reads the activity table and the four lists |
| Types.GetSignatureView | types.ts:25-45 | helper of Types.ReportExtensional: the field view reads the signature fields and the theme |
| Types.FieldsComplete | types.ts:25-45 | the field view lists each of the 19 fields exactly once |
| Types.BlankActivity | types.ts:57 | a new row has the given id and five empty texts |
| Types.InitialData | types.ts:47-67 | the template: one blank row with id "1", each list holding one empty entry, year "2026", title "RAPPORT TRIMESTRIEL", theme "official", the date read at load, every other text empty |
| Gateway.Merge | App.tsx:21-23 | a patched field takes the patch's value and every other field keeps its old one; lists are replaced wholesale |
| Gateway.MergeUnique | App.tsx:21-23 | a report that agrees field by field with the merge rule is the merge |
| Gateway.GetFits | types.ts:25-45 | every field holds a value of its declared kind (text, rows or lines) |
| Gateway.SingleField | components/ReportForm.tsx:149-154 | the patch an input sends names exactly one field, with the typed value |
| Gateway.SetField | components/ReportForm.tsx:262-265 | a one-field update writes that field and leaves the other eighteen unchanged |
| Gateway.SetFieldSameValue | components/ReportForm.tsx:149-154 | an input writing back the value it shows changes nothing (it uses Gateway.GetFits to meet the value-kind requirement) |
| Gateway.MergeEmpty | App.tsx:21-23 | an empty patch changes nothing |
| Gateway.Compose | App.tsx:21-23 | two patches combine into one where the later wins on every shared field |
| Gateway.MergeCompose | App.tsx:21-23 | merging two patches in sequence equals merging their combination |
| Gateway.MergeIdempotent | App.tsx:21-23 | merging the same patch twice equals merging it once |
| Gateway.FullPatch | App.tsx:75 | a saved snapshot carries every field of the report |
| Gateway.MergeFull | App.tsx:153 | a complete report laid over any report, the template included, comes back unchanged |
| Gateway.Import | App.tsx:143-170 | an empty file changes nothing; a parse error, `null` or a scalar is rejected and the document is kept; an object (or an array, which is an object to `typeof`) replaces the document with the template overlaid field by field |
| Gateway.ImportIgnoresPrevious | App.tsx:153 | a successful import does not depend on the document it replaces |
| Gateway.ImportArrayIsReset | App.tsx:152-153 | importing an array resets the 19 fields to the template |
| Gateway.Snapshot | App.tsx:75 | the JSON export is an object naming every field with its value |
| Gateway.SnapshotRoundTrip | App.tsx:143-170 | importing an exported JSON file restores exactly the exported report, whatever was open |
| Gateway.Reset | App.tsx:172-177 | the template replaces the document only when the user confirms |
| Form.EditById | components/ReportForm.tsx:74-76 | row edit by id: same length and ids; exactly the chosen field of the matching rows changes |
| Form.EditAbsentId | components/ReportForm.tsx:74-76 | an edit addressed to an id no row has changes nothing |
| Form.EditKeepsUniqueIds | components/ReportForm.tsx:74-76 | row edits keep ids unique |
| Form.AppendActivity | components/ReportForm.tsx:179 | adding a row keeps the old rows as a prefix and appends one blank row with the new id |
| Form.AppendKeepsUniqueIds | components/ReportForm.tsx:179 | appending a row with a fresh id keeps ids unique |
| Form.DeleteById | components/ReportForm.tsx:187 | the filter never lengthens the table; which rows it keeps, and in what order, is stated by Form.DeleteMembers and Form.DeleteConcat |
| Form.DeleteMembers | components/ReportForm.tsx:187 | a row is kept exactly when it is in the old table and its id differs from the deleted one |
| Form.DeleteConcat | components/ReportForm.tsx:187 | deletion works piecewise over concatenation, so kept rows keep their relative order |
| Form.DeleteAbsentId | components/ReportForm.tsx:187 | deleting an id no row has changes nothing |
| Form.NoIdInSlice | components/ReportForm.tsx:187 | a slice of rows none of which has the id contains no such row |
| Form.DeleteMiddle | components/ReportForm.tsx:187 | deleting an id that only one row carries removes just that row and keeps the rows around it in order |
| Form.DeleteUnique | components/ReportForm.tsx:187 | with unique ids, deleting row k's id removes exactly row k and the length drops by one |
| Form.DeleteKeepsUniqueIds | components/ReportForm.tsx:187 | deletion keeps ids unique |
| Form.ListKey | components/ReportForm.tsx:78 | the four list names stand for the four list fields |
| Form.ListKeyInjective | components/ReportForm.tsx:78 | two list names stand for the same field only when they are the same name |
| Form.GetList | components/ReportForm.tsx:79 | a list name reads the corresponding list field |
| Form.WriteEntry | components/ReportForm.tsx:79-80 | writing position `index` of a copy changes that entry only, and keeps the length |
| Form.AppendEntry | components/ReportForm.tsx:243 | the `+` button appends one empty entry after the old ones |
| Form.RemoveEntry | components/ReportForm.tsx:248 | removing position `index` shifts the later entries down by one; an index past the end changes nothing |
| Form.RemoveEntryIsCut | components/ReportForm.tsx:248 | removal is the list before `index` followed by the list after it |
| Form.ChangeActivity | components/ReportForm.tsx:74-76 | a row edit changes only the activity table, and changes it by the edit-by-id rule |
| Form.AddActivity | components/ReportForm.tsx:179 | the add button changes only the activity table, by appending one blank row |
| Form.DeleteActivity | components/ReportForm.tsx:187 | the delete button changes only the activity table, by the delete-by-id rule |
| Form.UpdateList | components/ReportForm.tsx:78-82 | a list edit changes only that list, and only its entry at `index` |
| Form.AppendToList | components/ReportForm.tsx:243 | the `+` button changes only that list |
| Form.RemoveFromList | components/ReportForm.tsx:248 | an entry's delete button changes only that list |
| Form.PeriodReady | components/ReportForm.tsx:17 | the effect's guard: start, end and year set and the period still empty; Form.AutoFillPeriod changes the document exactly when it holds |
| Form.PeriodLabel | components/ReportForm.tsx:18 | the period label is start, " à ", end, a space and the year |
| Form.AutoFillPeriod | components/ReportForm.tsx:16-20 | when start, end and year are set and the period is empty, the period becomes the label; otherwise nothing changes; no other field ever changes |
| Form.AutoFillKeepsTypedPeriod | components/ReportForm.tsx:17 | a period the user typed is never overwritten |
| Form.AutoFillIdempotent | components/ReportForm.tsx:16-20 | running the effect twice gives the same result as running it once |
| Form.TrimStart | components/ReportForm.tsx:55 | leading white space is dropped; what remains is a suffix that starts with a non-space |
| Form.TrimEnd | components/ReportForm.tsx:55 | trailing white space is dropped; what remains is a prefix that ends with a non-space |
| Form.Trim | components/ReportForm.tsx:55 | trimming never lengthens the text; Form.TrimIsSlice, Form.TrimmedEnds and Form.TrimBlank state what it keeps |
| Form.TrimBlank | components/ReportForm.tsx:55 | the trimmed reply is empty exactly when the reply is white space only |
| Form.TrimIsSlice | components/ReportForm.tsx:55 | the trimmed reply is the contiguous slice of the reply that starts where its leading white space ends |
| Form.TrimmedEnds | components/ReportForm.tsx:55 | the trimmed reply neither begins nor ends with white space |
| Form.TrimIdempotent | components/ReportForm.tsx:55 | trimming twice gives the same result as trimming once |
| Form.ApplyIntroduction | components/ReportForm.tsx:52-55 | a non-empty assistant reply, trimmed, becomes the introduction; no reply changes nothing; no other field changes |
| Form.ApplyAnalysis | components/ReportForm.tsx:40-68 | the reply is merged over the report as it is when the reply arrives; with a reply that parses, each list named in the answer takes the answer's value and each other list takes its value from when the request was sent; with no reply, an empty reply or a parse failure (including `null`) nothing changes; non-list fields keep their values at reply time |
| Form.EmptyAnswerChangesNothing | components/ReportForm.tsx:60-65 | when nothing was edited during the call, an answer naming none of the four lists leaves the report as it was |
| Form.PendingListEditIsLost | components/ReportForm.tsx:51-65 | a list edited while the call is pending and left out of the answer goes back to its value at request time, so the edit is lost |
| Form.ChoiceIds | components/ReportForm.tsx:84-97 | one id per picker button; Form.ThemeChoicesComplete states which ids they are |
| Form.ThemeChoicesComplete | components/ReportForm.tsx:84-97 | the picker offers each of the twelve themes exactly once |
| Form.PickTheme | components/ReportForm.tsx:134 | a theme button stores that theme's name, which the cover then recognises, and nothing else changes |
| Preview.CoverTitle | components/ReportPreview.tsx:181 | the cover title is the report title, or "Rapport Trimestriel" when that is empty |
| Preview.CoverFor | components/ReportPreview.tsx:207-388 | each theme's case draws its own variant; period and department always shown; the title block (fixed title, editable period) only on the official, prestige, architect and vintage covers |
| Preview.RenderCover | components/ReportPreview.tsx:207-401 | a recognised theme name selects its variant; any other stored value draws the official variant |
| Preview.DefaultCoverIsOfficial | components/ReportPreview.tsx:389-399 | the default branch draws exactly what the official case draws |
| Preview.EachThemeOwnCover | components/ReportPreview.tsx:207-388 | each of the twelve names selects its own cover |
| Preview.TableRows | components/ReportPreview.tsx:497-510 | one table row per activity; Preview.TableLayout states that row i is numbered i + 1 and shows activity i |
| Preview.Bullets | components/ReportPreview.tsx:529-551 | a sub-list is shown exactly when it has entries, one bullet per entry |
| Preview.HasActivities | components/ReportPreview.tsx:134 | `hasActivites`: the table is shown exactly when it holds (Preview.SectionVisibility) |
| Preview.HasAnalysis | components/ReportPreview.tsx:135-137 | `hasAnalyse`: the analysis is shown exactly when progress, impacts or challenges has an entry (Preview.SectionVisibility) |
| Preview.HasRecommendations | components/ReportPreview.tsx:138 | `hasRecommandations`: the recommendations are shown exactly when it holds (Preview.SectionVisibility) |
| Preview.MainHeading | components/ReportPreview.tsx:413 | page two's heading; Preview.HeadingFallback states that it names the department or shows twenty dots |
| Preview.Render | components/ReportPreview.tsx:404-634 | the preview is three containers: cover, main page, closing page |
| Preview.Tag | components/ReportPreview.tsx:522-557 | a section tag is present exactly when its condition holds |
| Preview.AlwaysPresent | components/ReportPreview.tsx:404-634 | the cover, identity block, introduction and signature block are always drawn |
| Preview.ClosingSections | components/ReportPreview.tsx:519-632 | the closing page's sections in order: analysis with its non-empty sub-lists, recommendations, signatures |
| Preview.SectionVisibility | components/ReportPreview.tsx:134-138 | table, analysis, each sub-list and recommendations each appear if and only if their lists are non-empty |
| Preview.RenderSections | components/ReportPreview.tsx:404-634 | the whole preview's sections are the cover's, then page two's, then page three's |
| Preview.TableLayout | components/ReportPreview.tsx:481-513 | with activities, the table has the six fixed headings and one row per activity, row i numbered i + 1 and showing activity i |
| Preview.AnalysisBullets | components/ReportPreview.tsx:529-551 | inside the analysis section, each non-empty list is drawn entry by entry |
| Preview.HeadingFallback | components/ReportPreview.tsx:413 | page two's heading names the department, or twenty dots when none is set |
| Preview.SectionsShowTheReport | components/ReportPreview.tsx:425-627 | the identity block shows department, period, manager and contact; the introduction shows its text; the signature block shows date, office, secretary and director; the recommendations are shown entry by entry exactly when there are any |
| Preview.TemplateShowsEverySection | components/ReportPreview.tsx:134-138 | the template's lists each hold one entry, so it shows every section |
| Preview.EmptyListsOmitAnalysis | components/ReportPreview.tsx:134-138 | with all four lists empty, page three holds only the signature block |
| Preview.UnknownThemeScenario | components/ReportPreview.tsx:389-399 | an unknown theme with one activity gives the official cover and a single row numbered 1 |
| Preview.HandleListEdit | components/ReportPreview.tsx:154-158 | the preview's list edit changes only that list's entry at `index` |
| Preview.HandleActivityEdit | components/ReportPreview.tsx:160-165 | the preview's row edit changes only the chosen field of the rows with that id |
| Preview.PreviewEditsMatchForm | components/ReportPreview.tsx:154-165 | the preview's edits and the form's edits have the same effect |
| Csv.DoubleQuotes | App.tsx:93-97 | doubling quotes never shortens text and leaves quote-free text unchanged |
| Csv.QuoteField | App.tsx:93-97 | a text cell begins and ends with a quote |
| Csv.ReadDoubled | App.tsx:93-97 | reading doubled text stops exactly at the closing quote and recovers the original |
| Csv.ReadQuotedPair | App.tsx:93-97 | helper of Csv.ReadDoubled: a doubled quote inside a quoted cell reads as one quote |
| Csv.ReadQuotedPlain | App.tsx:93-97 | helper of Csv.ReadDoubled: any other character inside a quoted cell reads as itself |
| Csv.SplitFront | App.tsx:93-97 | helper of Csv.ReadDoubled: regroups the text after the first doubled character |
| Csv.QuotedFieldRoundTrip | App.tsx:93-97 | a quoted cell reads back as its text, whatever quotes, separators or line feeds it holds |
| Csv.ReadBareSafe | App.tsx:92 | an unquoted cell free of delimiters reads back up to the next delimiter |
| Csv.BareFieldRoundTrip | App.tsx:92 | an unquoted cell free of delimiters reads back unchanged |
| Csv.Join | App.tsx:99 | `join(";")` of no cells is empty and of one cell is that cell |
| Csv.ReadRecordStep | App.tsx:99 | helper of Csv.JoinRoundTrip: a cell followed by `;` is read, then the rest of the record |
| Csv.ReadRecordLast | App.tsx:99 | helper of Csv.JoinRoundTrip: the last cell followed by the line feed ends the record |
| Csv.ReadsBackTail | App.tsx:99 | helper of Csv.JoinRoundTrip: the cells after the first still read back |
| Csv.ReadsBackAt | App.tsx:99 | helper of Csv.JoinRoundTrip: one cell reads back before a delimiter |
| Csv.JoinFront | App.tsx:99 | helper of Csv.JoinRoundTrip: regroups a joined record around its first separator |
| Csv.JoinRoundTrip | App.tsx:99 | a joined row ended by a line feed reads back cell by cell, when each cell reads back on its own |
| Csv.ConcatSnoc | App.tsx:99 | `csv += ...` puts the new record after the text already written |
| Csv.ConcatFront | App.tsx:90-100 | text built by appending records can be read from its first record |
| Csv.ReadRecordsStep | App.tsx:99 | a record followed by further records reads back as that record, then the others |
| Csv.ConcatRoundTrip | App.tsx:90-100 | appended records read back in order, when each record reads back on its own |
| Csv.Decimal | App.tsx:92 | the row number is written as a non-empty string of digits |
| Csv.DecimalRoundTrip | App.tsx:92 | the digits written for a row number denote that number |
| Csv.DigitCharValue | App.tsx:92 | helper of Csv.DecimalRoundTrip: each digit character denotes its digit |
| Csv.DecimalBareSafe | App.tsx:92 | a row number contains no delimiter |
| Export.Stem | App.tsx:66 | the file stem is the department, or "AD" when that is empty |
| Export.ReportBase | App.tsx:66 | the name shared by the PDF and JSON files; its layout is stated by Export.FileNameLayout |
| Export.PdfName | App.tsx:66 | the PDF file name ends in `.pdf` |
| Export.JsonName | App.tsx:79 | the JSON file name ends in `.json` |
| Export.CsvName | App.tsx:106 | the spreadsheet file name ends in `.csv` |
| Export.WordName | App.tsx:136 | the Word file name ends in `.doc` |
| Export.FileNameLayout | App.tsx:66-136 | the PDF, JSON, CSV and Word names are their fixed prefix, the stem, then the year where one is included and the extension |
| Export.FileNamesDependOnDepartmentAndYear | App.tsx:66-136 | the file names depend only on department and year |
| Export.WrittenFields | App.tsx:91-98 | a record has six cells: the number followed by the five quoted texts |
| Export.CsvRecord | App.tsx:91-99 | every record ends with a line feed |
| Export.RecordFields | App.tsx:91-98 | a record carries six values |
| Export.Records | App.tsx:90-100 | one record per activity |
| Export.CsvText | App.tsx:86-100 | the file text; Export.CsvStartsWithHeader and Export.CsvRoundTrip state what it holds and what a reader gets back |
| Export.RecordAt | App.tsx:90-100 | record i is activity i's record, numbered i + 1 |
| Export.CsvRows | App.tsx:90-100 | the loop appends the records of every activity, in order |
| Export.ExportCsv | App.tsx:86-111 | the file is the byte-order mark, the header line and one record per activity; named `Suivi_PTA_<stem>.csv` |
| Export.CsvStartsWithHeader | App.tsx:87-88 | the file begins with the byte-order mark followed by the header line |
| Export.RecordRoundTrip | App.tsx:91-99 | a record reads back as its number and the five texts exactly as typed |
| Export.BodyFields | App.tsx:90-100 | what a reader should get, one row per activity |
| Export.BodyFieldsAt | App.tsx:90-100 | helper of Export.RecordReadsBack: target row i holds number i + 1 and activity i's five texts |
| Export.RecordReadsBack | App.tsx:91-99 | record i, followed by any text, reads back as number i + 1 and activity i's five texts |
| Export.BodyRoundTrip | App.tsx:90-100 | the records read back one per activity, in order |
| Export.HeaderCellsBareSafe | App.tsx:88 | none of the six column names holds a separator, line feed or quote, so they can stand unquoted |
| Export.Column0Safe | App.tsx:88 | helper of Export.HeaderCellsBareSafe: column name 1 needs no quoting |
| Export.Column1Safe | App.tsx:88 | helper of Export.HeaderCellsBareSafe: column name 2 needs no quoting |
| Export.Column2Safe | App.tsx:88 | helper of Export.HeaderCellsBareSafe: column name 3 needs no quoting |
| Export.Column3Safe | App.tsx:88 | helper of Export.HeaderCellsBareSafe: column name 4 needs no quoting |
| Export.Column4Safe | App.tsx:88 | helper of Export.HeaderCellsBareSafe: column name 5 needs no quoting |
| Export.Column5Safe | App.tsx:88 | helper of Export.HeaderCellsBareSafe: column name 6 needs no quoting |
| Export.HeaderRoundTrip | App.tsx:88 | the header line reads back as the six column names |
| Export.ReadExportSkipsBom | App.tsx:87 | a reader skips the leading byte-order mark and reads the records after it |
| Export.CsvRoundTrip | App.tsx:86-100 | reading the file (after its byte-order mark) gives the header, then for each activity its number and its five texts exactly as typed |
| Export.CsvMatchesTable | App.tsx:90-92 | CSV record i and preview table row i show the same number and the same five texts |
| Export.PdfBuilder.constructor | App.tsx:40 | a new document has one blank page |
| Export.PdfBuilder.AddPage | App.tsx:59 | a blank page is appended |
| Export.PdfBuilder.AddImage | App.tsx:63 | the image goes on the current (last) page; earlier pages are untouched |
| Export.CallsFor | App.tsx:58-63 | n regions take 2n − 1 builder calls |
| Export.CallsAlternate | App.tsx:58-63 | the calls alternate between adding an image and adding a page: a new page comes before every image but the first |
| Export.PdfSpec | App.tsx:32-72 | the intended outcome: "no page found" exactly when there are no regions; a failure exactly when some capture failed; otherwise the file `Rapport_<stem>_<annee>.pdf` with one page per region and 2n − 1 builder calls |
| Export.ExportPdf | App.tsx:32-72 | no regions gives "no page found"; any failed capture saves nothing; otherwise the file is named `Rapport_<stem>_<annee>.pdf` and holds one page per region, in order, each with that region's image at the margins |
| Export.PdfPages | App.tsx:45-66 | a saved PDF has one page per region, page i holding region i's image at (10, 10) sized 190 × 277 |
| Export.SavedImagesFillPage | App.tsx:40-63 | every image of a saved PDF sits at (10, 10) and ends 10 mm before the right and bottom edges of the 210 × 297 mm page |
| Export.PdfFailure | App.tsx:68-71 | one failed capture anywhere means the export fails |
| Export.PreviewPdfHasThreePages | App.tsx:33-66 | exporting the three preview containers gives a three-page document built by image, page, image, page, image |

## Left out

- Extra keys in an imported object are dropped. The source spreads every key
  into the document (App.tsx:153); an imported array adds its indices "0",
  "1", … the same way. The model's record has exactly the 19 fields. Such
  keys never reach the pages, the CSV, the PDF or the file names. The
  source's JSON export (App.tsx:75) and its stored copy (App.tsx:18) do
  carry them, and the model does not.
- Gateway.ImportArrayIsReset states the reset for the 19 fields only: the
  source's document also keeps the array's index keys, which the JSON
  export then writes out.
- Gateway.Snapshot names the 19 fields only. After an import with extra
  keys, the source's JSON export also writes those keys.
- Imported values of the wrong type are not modelled: a string where a list
  is expected, a list where a string is expected, and so on. `Json.JObject`
  carries only well-typed fields. The source copies such values unchecked;
  the model does not cover what the page then shows.
- The JSON stored in `localStorage` and its reload at start-up
  (App.tsx:12-19) are browser storage. Nothing about them is modelled;
  `Gateway.Snapshot` is the same snapshot the reload would read.
- FileReader, Blob, object URLs and the download links are browser I/O. The
  model takes the file's text and parse result as inputs, and returns file
  names and contents.
- The Word export (App.tsx:113-141) wraps the page markup read from the live
  document in a fixed HTML header. Only its file name is modelled
  (`Export.WordName` in `Export.FileNameLayout`).
- `window.print` and its delay (App.tsx:25-30) are browser calls.
- The page capture and the PDF library are parameters: the capture gives
  an image or a failure. Their scale, JPEG quality and background colour
  are not modelled.
- The assistant call (network, API key, model name, prompts) is a parameter.
  Its result is `None` for a missing key or a failed call, or the reply
  text. Stripping code fences and running `JSON.parse` on the answer are
  represented by their result, `Form.AnswerParse`.
- Form.ApplyAnalysis treats a truthy non-array value in the answer as if it
  were a list. The source would store that value as the list; the
  model does not cover what the page then shows.
- The `keyof PTAActivity` parameter of the row edits also admits `id`, but no
  caller passes it. `Types.ActivityField` has only the five text fields.
- Form.UpdateList and Preview.HandleListEdit require an index inside the
  list. Their callers take the index from rendering the same list. The
  source would grow the list with holes for a larger index.
- Form.AutoFillPeriod models the effect's body, not when React runs it. The
  effect depends on start, end and year (components/ReportForm.tsx:20), and
  no input of the editor writes those three fields. So it runs on mount and
  whenever an import (App.tsx:153), a reset or the reload of the stored copy
  (App.tsx:12-19) changes one of them. It never runs after an edit, so a
  period the user clears by hand stays empty.
- Styling, icons, the logo's load-error fallback, the print CSS, the
  textarea auto-height, the cover ornaments, the page labels in the
  corners, and the `hasIntro` flag are not modelled. `hasIntro` is computed
  but never used to hide anything.
- Which tab or view is shown (`view`, `activeTab`, `isGenerating`) is UI
  state and is not modelled.
