# Manpower & Skills Matrix — a verified model of the dashboard's core

The Manpower & Skills Matrix is a web dashboard over employee skill
records. Each record names its group, SBU, BU, function, job role, band,
competency type, skill and proficiency level. A React front end filters
these records and shows them in two views. The skills matrix groups them
by band and splits them into functional and leadership skills. The data
grid lets a user edit a proficiency level or delete a record. A FastAPI
back end stores the records, checks logins and exports the matrix as a
PDF. A one-off script reads proficiency levels from a spreadsheet.

This project models the computations behind those features and proves
properties of them:

- **Dashboard filtering** (`Dashboard`, `Filters`, `Records`):
  - the filtered record list;
  - the sorted option lists of the four filters (Function, Band, SBU, Role);
  - the faceted "available" options, where each dimension is filtered by the other three.
- **Filter widgets**:
  - `MultiSelect`: toggling a value, clearing the selection, and the `displayText` shown beside the label.
  - `FilterBar`: updating one dimension, Clear All, the "has active filters" test, and the option lists. Three of the lists are sorted in place in an `array`.
- **Skills matrix** (`SkillsMatrix`):
  - the grouping loop that fills a dictionary of band buckets;
  - the band comparator (canonical bands first, then the rest in string order);
  - the view-mode state.
- **PDF export** (`PdfExport`):
  - the filter summary line;
  - grouping by band;
  - the stable sort by rank in the band order (999 for other bands);
  - the cells of each skill row, the sections, and the empty-data error.
- **Record table** (`DataGrid`):
  - the optimistic cell update, reverted when the save fails;
  - delete by id;
  - the badge thresholds.
- **Server** (`Server`):
  - replace and delete of the first record with an id, answering 404 when there is none;
  - the fixed login pairs and the one-time code.
- **Spreadsheet import** (`ExcelImport`): the proficiency level of a cell, which is its leading digit or 0.

`Seqs`, `Sorting`, `Text` and `Wrappers` hold the generic parts. These
are filter/map over sequences, first-occurrence de-duplication, a stable
insertion sort over any strict order with a uniqueness theorem, string
order, and decimal digits.

The front end and the PDF export order the bands outside the canonical
list differently, and the model proves it:

- `SkillsMatrix.SortBands` puts them in string order.
- `PdfExport.SortByRank` keeps them in first-appearance order (`PdfExport.SortByRankKeepsOtherBandsInPlace`).
- On canonical bands the two agree (`PdfExport.CanonicalOrdersAgree`).

The filter bar does not show the faceted lists. Dashboard.jsx computes
`availableOptions` (lines 77-116) and passes it to the filter bar, which
destructures it (FilterBar.jsx:5) but builds every option list from
`uniqueValues` (FilterBar.jsx:19-22). So the lists offered are always the
full `Dashboard.FilterOptions`, and `Dashboard.Available` describes lists
that are computed but never displayed.

The examples `PdfExport.ReportOrderExample` and `PdfExport.MatrixOrderExample` show the two orders side by side.

## Model

| member | source | states |
|---|---|---|
| Records.ValuesOf | frontend/src/components/Dashboard.jsx:68-71 | `data.map(d => d.X)`: one value per record, the record's field for the dimension |
| Records.ValuesOfMembership | frontend/src/components/Dashboard.jsx:68-71 | a value is among the mapped values iff some record carries it in that dimension |
| Dashboard.FilteredData | frontend/src/components/Dashboard.jsx:53-62 | the filtered list is an order-preserving subsequence of the data, and every kept record satisfies all four selections |
| Dashboard.FilteredDataMultiplicity | frontend/src/components/Dashboard.jsx:54-61 | a record is kept (as often as it occurs) iff, for each of Function, Band, SBU and Role, the selection is empty or contains its field (Role against Job_Role_Name_without_concat); otherwise it is dropped |
| Dashboard.FilteredDataNoSelection | frontend/src/components/Dashboard.jsx:56-59 | with all four selections empty the filtered list is the data itself |
| Dashboard.FilteredDataIdempotent | frontend/src/components/Dashboard.jsx:53-62 | filtering the filtered list again with the same selections changes nothing |
| Dashboard.SortedDistinct | frontend/src/components/Dashboard.jsx:68-71 | `[...new Set(v)].sort()`: ascending in string order, and holding each distinct value of `v` exactly once |
| Dashboard.FilterOptions | frontend/src/components/Dashboard.jsx:65-74 | with no data all four option lists are empty |
| Dashboard.SortedDistinctIncreasing | frontend/src/components/Dashboard.jsx:68-71 | `[...new Set(v)].sort()` is strictly ascending and holds exactly the values of `v` |
| Dashboard.FilterOptionsExact | frontend/src/components/Dashboard.jsx:65-74 | each option list is strictly ascending and holds exactly the values the dimension takes in the data, whatever the selections |
| Dashboard.AvailableOptions | frontend/src/components/Dashboard.jsx:77-78 | with no data all four available lists are empty |
| Dashboard.Available | frontend/src/components/Dashboard.jsx:80-115 | the available list of one dimension has no duplicates and takes its values from the records passing the other three selections; `Dashboard.AvailableExact` and `Dashboard.AvailableFirstAppearance` state which values and in which order |
| Dashboard.AvailableExact | frontend/src/components/Dashboard.jsx:82-115 | a value is available for a dimension iff some record carries it and passes the other three selections |
| Dashboard.AvailableIgnoresOwnSelection | frontend/src/components/Dashboard.jsx:82-108 | changing a dimension's own selection never changes its available list |
| Dashboard.AvailableFirstAppearance | frontend/src/components/Dashboard.jsx:80-115 | available lists are duplicate-free and in order of first appearance among the records passing the other three selections |
| Dashboard.AvailableWithinFilterOptions | frontend/src/components/Dashboard.jsx:65-116 | every available value is among the dimension's option list |
| Dashboard.FilteredValuesAreAvailable | frontend/src/components/Dashboard.jsx:53-116 | every value shown in the filtered list is offered by its own filter |
| Dashboard.OnlyOwnSelectionOffersEverything | frontend/src/components/Dashboard.jsx:65-116 | when only the dimension itself has a selection, its available list is all its distinct values, and sorted it is its option list |
| Text.SortStrings | frontend/src/components/Dashboard.jsx:68-71 | `.sort()`: a permutation of the input, ordered by string order |
| Text.StringLessIsStrictTotalOrder | frontend/src/components/Dashboard.jsx:68-71 | the string order used by `.sort()` is a strict total order |
| MultiSelect.Toggle | frontend/src/components/MultiSelect.jsx:22-27 | a selected value is removed; an unselected value is appended after the kept selection |
| MultiSelect.ToggleFlipsOnlyThatValue | frontend/src/components/MultiSelect.jsx:23-25 | toggling flips the membership of that value and of no other |
| MultiSelect.ToggleRemovesEveryOccurrence | frontend/src/components/MultiSelect.jsx:24 | removing keeps the order of the rest, drops every copy of the value and keeps every other value's count |
| MultiSelect.ToggleTwice | frontend/src/components/MultiSelect.jsx:22-25 | toggling an unselected value twice restores the selection |
| MultiSelect.ToggleKeepsNoDup | frontend/src/components/MultiSelect.jsx:22-25 | a duplicate-free selection stays duplicate-free |
| MultiSelect.ClearSelection | frontend/src/components/MultiSelect.jsx:29-32 | the selection becomes empty |
| MultiSelect.DisplayText | frontend/src/components/MultiSelect.jsx:34-38 | `displayText` is the label with nothing selected, the value itself with one value, and ends in " selected" with two or more |
| MultiSelect.DisplayTextCount | frontend/src/components/MultiSelect.jsx:34-38 | with two or more values `displayText` is the count in decimal followed by " selected", and the digits read back as the count |
| MultiSelect.DisplayTextAfterClearAndToggle | frontend/src/components/MultiSelect.jsx:22-38 | after clearing `displayText` is the label; after then selecting one value it is that value |
| FilterBar.HandleChange | frontend/src/components/FilterBar.jsx:7-9 | the key's selection becomes the new list and every other dimension keeps its selection |
| FilterBar.HasActiveFilters | frontend/src/components/FilterBar.jsx:24-28 | the filters are active iff one of Function, Band, SBU and Role has a non-empty selection |
| FilterBar.HasActiveFiltersIff | frontend/src/components/FilterBar.jsx:24-28 | the filters are active iff some dimension has a non-empty selection (a missing key counts as empty) |
| FilterBar.HandleChangeActivates | frontend/src/components/FilterBar.jsx:7-28 | selecting a non-empty list in any dimension makes the filters active |
| FilterBar.ClearAll | frontend/src/components/FilterBar.jsx:71 | Clear All sets exactly the four dimensions, each to the empty list |
| FilterBar.ClearAllShowsEverything | frontend/src/components/FilterBar.jsx:71 | after Clear All nothing is active and the dashboard shows every record |
| FilterBar.FormatOptions | frontend/src/components/FilterBar.jsx:12-17 | one option per value, in order, with value and label both the value |
| FilterBar.SortInPlace | frontend/src/components/FilterBar.jsx:19-22 | the array is sorted in place: its new contents are the sorted copy of its old contents |
| FilterBar.OptionLists | frontend/src/components/FilterBar.jsx:19-22 | the SBU, band and role arrays are sorted in place and the function array is left as given; the options list each array's contents |
| FilterBar.SortingFilterOptionsChangesNothing | frontend/src/components/FilterBar.jsx:19-22 | the dashboard's option lists are already sorted, so the in-place sort leaves them as they are |
| SkillsMatrix.BandKey | frontend/src/components/SkillsMatrix.jsx:17 | the bucket key is the band, or "Unassigned" for an empty band; never empty |
| SkillsMatrix.ToCard | frontend/src/components/SkillsMatrix.jsx:23-29 | the card carries the record's skill name, definition, level and job role; its id is the record's id iff that id is non-zero (truthy), a generated one otherwise |
| SkillsMatrix.LexCompare | frontend/src/components/SkillsMatrix.jsx:46 | zero iff the two bands are equal, negative iff the first comes first in string order |
| SkillsMatrix.CompareBands | frontend/src/components/SkillsMatrix.jsx:40-47 | zero iff the bands are equal; a canonical band sorts before any other band |
| SkillsMatrix.BandBeforeIsStrictTotalOrder | frontend/src/components/SkillsMatrix.jsx:40-47 | the band comparator is a strict total order |
| SkillsMatrix.SortBands | frontend/src/components/SkillsMatrix.jsx:39-47 | the keys are permuted into comparator order |
| SkillsMatrix.Matrix | frontend/src/components/SkillsMatrix.jsx:11-52 | reference definition of the rendered rows (one per sorted band key, each holding the cards of that band's items); `SkillsMatrix.BuildMatrix` proves the loop computes it and the `SkillsMatrix.Matrix*` lemmas state its properties |
| SkillsMatrix.BuildMatrix | frontend/src/components/SkillsMatrix.jsx:11-52 | the grouping loop and the final sort/map produce exactly the matrix function |
| SkillsMatrix.MatrixNames | frontend/src/components/SkillsMatrix.jsx:39-51 | the rows' band names are the sorted bucket keys, without duplicates |
| SkillsMatrix.MatrixOrder | frontend/src/components/SkillsMatrix.jsx:40-47 | canonical bands come first in band-order position; other bands follow in string order |
| SkillsMatrix.MatrixBuckets | frontend/src/components/SkillsMatrix.jsx:16-20 | there is one row per distinct band key and no other |
| SkillsMatrix.MatrixPlacesEveryItem | frontend/src/components/SkillsMatrix.jsx:16-36 | every item's card is in its band's row: in the leadership list for "Behavioral" or "Raymond Leadership Competency", in the functional list otherwise |
| SkillsMatrix.MatrixCardCount | frontend/src/components/SkillsMatrix.jsx:16-37 | the matrix holds exactly one card per item |
| SkillsMatrix.MatrixNoEmptyBucket | frontend/src/components/SkillsMatrix.jsx:16-37 | every row holds at least one card |
| SkillsMatrix.SortBandsExample | frontend/src/components/SkillsMatrix.jsx:40-47 | "Band 3", "Band 1A", "Unassigned", "Band 2A" sort to "Band 1A", "Band 2A", "Band 3", "Unassigned" |
| SkillsMatrix.MatrixView.constructor | frontend/src/components/SkillsMatrix.jsx:6-8 | the view starts in mode "all" with no selected skill |
| SkillsMatrix.MatrixView.ShowMode | frontend/src/components/SkillsMatrix.jsx:81-92 | the Functional and Leadership buttons set the mode and drop the selected skill |
| SkillsMatrix.MatrixView.HandleClear | frontend/src/components/SkillsMatrix.jsx:54-57 | back to mode "all" with no selected skill |
| SkillsMatrix.MatrixView.HandleSkillClick | frontend/src/components/SkillsMatrix.jsx:59-63 | the clicked skill is selected only outside mode "all"; the mode never changes |
| PdfExport.SummaryOf | backend/routers/pdf_export.py:119-126 | there is a filter line iff some filter value is truthy |
| PdfExport.FilterSummary | backend/routers/pdf_export.py:119-126 | the `any` check and the `f_list` loop build exactly the filter line |
| PdfExport.SummaryOfOneFilter | backend/routers/pdf_export.py:119-126 | with one applied filter the line is the prefix followed by `key: values` |
| PdfExport.GetBandOrder | backend/routers/pdf_export.py:21-22 | seven canonical bands, without duplicates |
| PdfExport.GroupByBand | backend/routers/pdf_export.py:130-144 | the grouping loop builds exactly the grouped dictionary, with keys in insertion order |
| PdfExport.GroupedData | backend/routers/pdf_export.py:131-144 | reference definition of the grouped dictionary (one bucket per band key, holding that band's items); `PdfExport.GroupByBand` proves the loop computes it, and the `PdfExport.GroupedData*` lemmas state its properties |
| PdfExport.GroupedDataPlacesItem | backend/routers/pdf_export.py:134-144 | every item sits in its band's bucket, in the leadership or the functional list as its competency type says |
| PdfExport.PdfKeysHas | backend/routers/pdf_export.py:134-137 | every item's band is a key |
| PdfExport.GroupedDataNoEmptyBucket | backend/routers/pdf_export.py:136-144 | every bucket holds at least one item |
| PdfExport.Rank | backend/routers/pdf_export.py:147 | a canonical band's key is its position in the band order; any other band's key is 999 |
| PdfExport.SortByRank | backend/routers/pdf_export.py:147 | `sorted(..., key=...)`: a permutation of the keys in non-decreasing rank |
| PdfExport.SortByRankCanonicalFirst | backend/routers/pdf_export.py:147 | canonical bands come before all others, in band-order position |
| PdfExport.SortByRankKeepsOtherBandsInPlace | backend/routers/pdf_export.py:147 | bands outside the band order keep their first-appearance order (the sort is stable) |
| PdfExport.CanonicalOrdersAgree | backend/routers/pdf_export.py:147 | on canonical bands the report order equals the matrix order |
| PdfExport.ReportOrderExample | backend/routers/pdf_export.py:147 | "Zeta", "Alpha" stay in that order in the report |
| PdfExport.MatrixOrderExample | frontend/src/components/SkillsMatrix.jsx:40-47 | "Zeta", "Alpha" become "Alpha", "Zeta" in the matrix |
| PdfExport.Truncate | backend/routers/pdf_export.py:183 | a definition of at most 100 characters is kept; a longer one becomes its first 100 characters and "..." |
| PdfExport.TruncateIdempotent | backend/routers/pdf_export.py:183 | truncating twice is truncating once, and a cell never exceeds 103 characters |
| PdfExport.RoleOf | backend/routers/pdf_export.py:182 | the role cell is the job role, or the function when the job role is missing or empty |
| PdfExport.DeriveRow | backend/routers/pdf_export.py:180-183 | the name cell is the skill name or "", the role cell follows `PdfExport.RoleOf`, and the definition cell is the truncated definition, at most 103 characters |
| Text.IntToString | backend/routers/pdf_export.py:181 | `str(n)` of an integer: non-empty, starting with "-" iff the number is negative, and the decimal digits of the number otherwise |
| PdfExport.DeriveRowProficiency | backend/routers/pdf_export.py:181 | the proficiency cell is decimal digits that read back as the level, or as 0 when it is missing |
| PdfExport.DeriveRows | backend/routers/pdf_export.py:179-183 | one row per skill, in order, each derived from its skill |
| PdfExport.SectionOf | backend/routers/pdf_export.py:155-232 | a section carries its band, and its two tables hold, in order, the row derived from each functional and each leadership item |
| PdfExport.CreateSections | backend/routers/pdf_export.py:150-153 | the section loop yields, in order, a section for each band with content |
| PdfExport.SectionsOf | backend/routers/pdf_export.py:150-153 | reference definition of the section list (one section per band with content, in the given order); `PdfExport.CreateSections` proves the loop computes it and `PdfExport.SectionsOfNonEmpty` states its length |
| PdfExport.SectionsOfNonEmpty | backend/routers/pdf_export.py:150-153 | when every band has content there is one section per band, in the given order |
| PdfExport.ReportBandsAreGrouped | backend/routers/pdf_export.py:147-151 | every sorted band has a bucket |
| PdfExport.ReportSections | backend/routers/pdf_export.py:130-153 | every distinct band of the items gets exactly one section, in rank order, whose tables are the derived rows of that band's functional and leadership items, in input order |
| PdfExport.ReportHasItemRow | backend/routers/pdf_export.py:130-183 | every posted item's row appears in the report, in the section of its band and in the table its competency type selects |
| PdfExport.CreateReport | backend/routers/pdf_export.py:118-153 | summary, grouping, sort and section loop produce exactly the report function |
| PdfExport.ReportOf | backend/routers/pdf_export.py:118-153 | reference definition of the report (the filter line and the sections of the grouped data in rank order); `PdfExport.CreateReport` proves the builder computes it and `PdfExport.ReportSections` states which sections it holds |
| PdfExport.ExportPdf | backend/routers/pdf_export.py:254-275 | missing or empty data fails with 500 "PDF generation failed: 400: No data provided"; otherwise the report of the data and the filters (default none) |
| DataGrid.FindIndex | frontend/src/components/DataGrid.jsx:19 | the index of the first row with the id, or -1 iff there is none |
| DataGrid.Optimistic | frontend/src/components/DataGrid.jsx:19-25 | same length; only the found row changes, and in it only `columnId`, which gets the new value |
| DataGrid.OptimisticKeepsRowFound | frontend/src/components/DataGrid.jsx:19-25 | unless the edited column is `id`, the edited row is still the first row with the id |
| DataGrid.RevertUndoesOptimistic | frontend/src/components/DataGrid.jsx:35-37 | putting the old row back gives the pre-update table exactly |
| DataGrid.WithoutRow | frontend/src/components/DataGrid.jsx:47 | delete keeps an order-preserving subsequence in which no row has the id |
| DataGrid.WithoutRowMultiplicity | frontend/src/components/DataGrid.jsx:47 | every row with the id is dropped and every other row is kept as often as it occurred |
| DataGrid.WithoutAbsentRow | frontend/src/components/DataGrid.jsx:47 | deleting an id no row carries changes nothing |
| DataGrid.Grid.constructor | frontend/src/components/DataGrid.jsx:14-15 | no status and no cell being edited |
| DataGrid.Grid.BeginCellUpdate | frontend/src/components/DataGrid.jsx:17-27 | the optimistic table is shown, the pre-update table and row index are captured, the status is "saving" |
| DataGrid.Grid.FinishCellUpdate | frontend/src/components/DataGrid.jsx:28-40 | on success the table stays and the status is "success"; on failure the captured table is restored exactly and the status is "error"; the editing cell is cleared either way |
| DataGrid.Grid.HandleCellUpdate | frontend/src/components/DataGrid.jsx:17-41 | the whole update: the optimistic table if saved, the old table otherwise, with the matching status and no editing cell |
| DataGrid.Grid.HandleDelete | frontend/src/components/DataGrid.jsx:43-52 | rows with the id are removed only when confirmed and deleted on the server; otherwise nothing changes |
| DataGrid.BadgeColor | frontend/src/components/DataGrid.jsx:105-107 | green iff the level is at least 4, yellow iff it is at least 3 and below 4, red iff it is below 3 |
| DataGrid.BadgeColorMonotonic | frontend/src/components/DataGrid.jsx:105-107 | a higher level never gets a lower badge |
| Server.IndexOfId | backend/main.py:128-129 | the first record with the id, or -1 iff there is none |
| Server.Updated | backend/main.py:128-132 | the first match is replaced by the body; length and all other records unchanged |
| Server.Deleted | backend/main.py:136-142 | the first match is removed; length drops by one, the records before it stay and the records after it shift left by one |
| Server.DeletedMultiset | backend/main.py:136-142 | delete removes one copy of the matched record and nothing else |
| Server.DeleteLeavesLaterDuplicate | backend/main.py:136-142 | with two records sharing an id, the next lookup finds the second one |
| Server.UpdateMayChangeId | backend/main.py:130 | the body's id is stored as sent, so an update can leave no record with the requested id |
| Server.RecordDb.UpdateRecord | backend/main.py:125-133 | the loop replaces the first match and returns the body; with no match the answer is 404 "Record not found" and the records are unchanged |
| Server.RecordDb.DeleteRecord | backend/main.py:135-143 | the loop removes exactly the first match and answers "Record deleted"; with no match the answer is 404 and the records are unchanged |
| Server.Login | backend/main.py:80-95 | a login succeeds iff the email and password are one of the three accounts, with "OTP sent to " and the email; otherwise 401 "Invalid credentials" |
| Server.LoginPairsNotMixed | backend/main.py:85-95 | for any two different accounts, the first's email with the second's password is refused with 401 |
| Server.VerifyOtp | backend/main.py:97-102 | success iff the code is "123456", with the fixed bearer token; otherwise 400 "Invalid OTP" |
| Server.VerifyOtpIgnoresEmail | backend/main.py:98-99 | the answer does not depend on the email |
| ExcelImport.CleanProficiency | backend/convert_excel_to_json.py:8-18 | the level is always 0..9, and 0 for a missing cell |
| ExcelImport.CellString | backend/convert_excel_to_json.py:13 | `str(val)`: a text cell is its text; a number cell is its decimal `Text.IntToString` form, which starts with a digit iff the number is not negative |
| Text.Strip | backend/convert_excel_to_json.py:13 | `.strip()`: the result is a slice of the input with only whitespace cut off before and after it, and a non-empty result neither starts nor ends with whitespace |
| ExcelImport.CleanProficiencyReadsFirstDigit | backend/convert_excel_to_json.py:13-15 | when the first non-blank character is a digit, the level is that digit's value, whatever follows |
| ExcelImport.CleanProficiencyNonDigit | backend/convert_excel_to_json.py:14-16 | when the first non-blank character is not a digit, the level is 0 |
| ExcelImport.CleanProficiencyBlank | backend/convert_excel_to_json.py:13-16 | empty or all-blank text gives 0 |
| ExcelImport.CleanProficiencyNumber | backend/convert_excel_to_json.py:13-15 | a whole number gives its leading decimal digit; a negative one gives 0 |
| ExcelImport.CleanProficiencyIdempotent | backend/convert_excel_to_json.py:8-18 | cleaning a cleaned level, written back as a number, gives the same level |
| ExcelImport.CleanProficiencyExamples | backend/convert_excel_to_json.py:12-16 | "4-Expert" gives 4, " 3 " gives 3, "12" gives 1, "Expert" and "" give 0 |

## Left out

- Rendering is not modelled: JSX, CSS classes, icons, ReportLab styles, tables, page layout, headers, footers and column widths.
- HTTP and storage are not modelled: the axios calls, FastAPI routing, CORS, and `load_db`/`save_db`. The server's answers are inputs (`saved`, `deleted`), and the JSON file is the `records` field of `RecordDb`.
- `reset_data` is not part of this model; it imports `generate_json`, a script that is not shown.
- SkillsMatrix.BuildMatrix: a band equal to a name that a JavaScript `{}` inherits from `Object.prototype` ("constructor", "toString", "valueOf", "hasOwnProperty", "isPrototypeOf", "propertyIsEnumerable", "toLocaleString", "__proto__", "__defineGetter__", "__defineSetter__", "__lookupGetter__", "__lookupSetter__") is not modelled as the source behaves. For such a band `!grouped[band]` is false, so no bucket is created, and the `.push` at SkillsMatrix.jsx:33 or :35 throws a TypeError and the matrix does not render. The model gives that band an ordinary row.
- PdfExport.ExportPdf: a JSON `null` for the top-level `filters` is read as absent, so the model builds a report. The source passes `None` on (pdf_export.py:256) and `any(filters.values())` at pdf_export.py:119 raises, which the handler at pdf_export.py:273-275 turns into 500 "PDF generation failed: 'NoneType' object has no attribute 'values'". A `null` `data` gives the same 500 "PDF generation failed: 400: No data provided" as an absent one, as modelled.
- Logging is not modelled: the `print` calls of `get_manpower_data` (main.py:70-75), the login debug line that prints the submitted email and password (main.py:82), the `logger.error` calls of pdf_export.py:242 and :274, and the `console.error` calls of DataGrid.jsx:33 and :49. None of them changes a result.
- Authentication state, routing, the PDF download button, the BigQuery scripts, the mock data generator and the pandas read/write loop of the spreadsheet script are not modelled. They are I/O or code outside the core.
- SkillsMatrix.ToCard: when the record id is 0 the component makes a random id with `Math.random`; the model keeps that id abstract (`Generated`).
- SkillsMatrix.LexCompare: `localeCompare` is approximated by code-point order of the characters, and so is the default `.sort()` of `Text.SortStrings`. UTF-16 code-unit order and locale rules differ from it outside the Basic Multilingual Plane and for accents and case.
- In a posted PDF item, a JSON `null` field is not told apart from an absent one. Fields other than strings (and the integer level) are not modelled.
- PdfExport.Truthy: only list and string filter values are modelled; numbers, booleans and nested objects are not.
- PdfExport.ExportPdf: failures of the PDF builder itself are not modelled, apart from the empty-data error, which the outer handler turns into a 500.
- Dashboard.FilteredData: a missing selection key reads as the empty selection. Dashboard.jsx would throw on it instead; the filter bar always sets all four keys.
- DataGrid.Grid.FinishCellUpdate: the two-second `setTimeout` that resets the status to none is not modelled.
- DataGrid.Grid.HandleCellUpdate: the row must exist, because with `findIndex` at -1 the source writes a non-index property. Concurrent changes to the table while the save is pending are not modelled; the revert restores the table captured before the save.
- DataGrid.BadgeColor: the level is an integer. A level that has become a string after an edit is compared after JavaScript's numeric coercion, which is not modelled.
- The cell-editing `select` handlers (start, change and cancel an edit) and TanStack table sorting are not modelled. They are rendering-level wiring of a library that is not shown.
- Dashboard.jsx passes `isAdmin`/`onDataChange` to the grid while DataGrid.jsx reads `setData`/`viewMode`. The model follows the handlers' intended logic, with `setData` replacing the grid's `data` field.
- FilterBar.OptionLists: the three sorted arrays must be distinct objects; the dashboard passes three separate lists.
- ExcelImport.CleanProficiency: it does not model Unicode whitespace for `strip`, Unicode digits for `isdigit`, or floating-point cells. Only ASCII digits and ASCII whitespace count, and cells are text or whole numbers.
- MultiSelect.DisplayText: it models the `displayText` value, not the rendered button. With nothing selected the button shows `All {label}s` instead (MultiSelect.jsx:59), so the label branch of `displayText` is never displayed. With a selection the button puts a `{label}: ` prefix before `displayText` (MultiSelect.jsx:55-57).
- The multi-select's open/closed dropdown state and the outside-click listener are not modelled.
