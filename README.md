# ACH Participants Dashboard — a Dafny model of its data transforms

The repository holds three Streamlit dashboards over one Excel workbook, `ACHdata.xlsx`. The
workbook lists the participants of the BancNet / PCHC automated clearing house.

- **`app.py`** shows one tab per worksheet. Each tab holds the sheet cleaned of empty rows and
  columns, a category filter, a role filter and an institution search. It also shows six counters:
  the number of rows and one count per institution-type code. The table is sorted by institution.
- **`app2.py`** keeps the sheets whose trimmed name ends in "Participants".
  - The first row of each sheet becomes a subtitle joined with " • ".
  - The second row gives the column names, and the rows after it are the data.
  - It shows a summary of rows by participation role and institution type, with TOTAL row and
    column.
  - It then shows a listing grouped by institution type and role. The role groups are
    Issuer/Acquirer for eGov sheets and Sender/Receiver otherwise. Each group is sorted and
    numbered from 1.
- **`app3.py`** keeps the sheets whose name contains "Participants".
  - The subtitle is "as of " and the first date that follows "as of" in the first row.
  - It filters by category, institution type and institution search.
  - For the sheet "Bills Pay Participants (Full)" it does two more things. It classifies each
    participant by its four QR / non-QR sender and receiver flags and summarises the result by
    institution type. It also shows one table of ✅ / ❌ marks per institution type.

The model works on a workbook that has already been read. A sheet is a grid of optional texts:
`None` is an empty cell (pandas' NaN) and `Some(s)` is the text of a value. A pandas `KeyError`
or `IndexError` is a `Failure` value.

Modules:

- `Wrappers`: `Option`, `Result` and the bookkeeping of loops that may fail.
- `Text`: Python's `strip`, `upper`/`lower`, `in`, `startswith`, `endswith`, `join` and `<=` on
  `str`.
- `Seqs`: the order-preserving selection behind every boolean-mask filter.
- `Sheets`: cells, grids, tables and column lookup.
- `AsOf`: a hand-written matcher for the subtitle pattern of `app3.py`, proved against a
  declarative statement of what the pattern accepts.
- `Loader`: the sheet loop shared by `app2.py` and `app3.py`, as a method proved against a
  function.
- `Filters`: the membership and search filters.
- `Listing`: `sort_values` on a text column, and numbering from 1.
- `Pivot`: the count pivot with its TOTAL column and row.
- `App`, `App2` and `App3`: one module per dashboard.

## Model

| member | source | states |
|---|---|---|
| Text.StripLeading | app.py:33 | `lstrip` drops a whitespace prefix: the result is a suffix of the input that does not start with whitespace |
| Text.StripTrailing | app.py:33 | `rstrip` drops a whitespace suffix: the result is a prefix of the input that does not end with whitespace |
| Text.Strip | app.py:33 | the stripped text is no longer than the input and neither starts nor ends with whitespace |
| Text.StripSlice | app.py:33 | the stripped text is the slice of the input between a whitespace prefix and a whitespace suffix: nothing inside is removed |
| Text.StripIdempotent | app2.py:40-44 | stripping the stripped column names again changes nothing |
| Text.UpperMatchIsLowerMatch | app3.py:204 | comparing the upper-cased text with an upper-case word is a case-insensitive comparison |
| Text.JoinLength | app2.py:38 | the joined subtitle holds every part plus one separator between neighbours |
| Text.JoinEmptyIff | app2.py:38 | with a non-empty separator the joined text is empty exactly when there is no part or one empty part |
| Text.LexLeTotal | app2.py:196 | Python's string order compares any two texts |
| Text.LexLeTransitive | app2.py:196 | Python's string order is transitive |
| Text.LexLeAntisymmetric | app2.py:196 | two texts ordered both ways are equal |
| Seqs.Filter | app.py:115-122 | a boolean-mask filter keeps only elements of the input that pass, never more of them |
| Seqs.FilterIsSubsequence | app.py:113-122 | a filtered frame is an order-preserving subsequence of the frame |
| Seqs.FilterMultiset | app.py:113-122 | a row that passes is kept as often as it occurs; no other row is kept |
| Seqs.FilterFilter | app.py:115-119 | filtering by two masks in turn keeps what their conjunction keeps |
| Seqs.FilterConcat | app3.py:208-231 | filtering a concatenation filters each part |
| Seqs.FilterEmptyIff | app3.py:269-270 | a block is empty exactly when no row passes its test |
| Seqs.FilterMember | app.py:113-122 | an element that passes is in the filtered sequence exactly when it is in the input |
| Sheets.NonEmptyTexts | app2.py:37 | the texts of the first row's values are absent exactly when the row holds no value |
| Sheets.ColumnIndex | app3.py:146-156 | the first column with the name, and none exactly when no column has it |
| AsOf.SkipSpaces | app3.py:58 | `\s*` consumes whitespace up to the first other character |
| AsOf.MatchAtSound | app3.py:57-61 | the matcher reports a date only where the pattern matches, and the date is the captured group |
| AsOf.MatchAtComplete | app3.py:57-61 | wherever the pattern matches, the matcher finds it with the same date |
| AsOf.SearchFindsLeftmost | app3.py:57-63 | a match with no match further left is what the search returns |
| AsOf.SearchNone | app3.py:57-63 | a search that finds nothing means the pattern matches nowhere |
| AsOf.SearchSome | app3.py:57-63 | a search that finds a date found it at the leftmost match |
| AsOf.NoMatchAt | app3.py:57-61 | where the matcher fails, the pattern matches with no date position |
| AsOf.SearchFromSkips | app3.py:57-63 | the search passes over positions where the matcher fails and returns the first match |
| AsOf.SearchFromReaches | app3.py:57-63 | the search finds something when the matcher succeeds somewhere ahead |
| AsOf.SearchFromFirst | app3.py:57-63 | a date the search finds comes from a position where the matcher succeeds and fails everywhere before it |
| Loader.CollectSheets | app3.py:46-72 | the sheet loop yields what the loading function describes, or the first failure |
| Loader.CollectOkIff | app3.py:46-72 | loading succeeds exactly when every eligible sheet loads |
| Loader.CollectErrIsFirst | app3.py:46-72 | a failed load reports the failure of the first eligible sheet that fails |
| Loader.CollectEntries | app2.py:31-48 | a successful load holds the eligible sheets in workbook order, each as it loaded |
| Loader.CollectCovers | app2.py:31-48 | every loaded entry comes from an eligible sheet, and every eligible sheet is loaded |
| Loader.CollectNames | app3.py:46-70 | the loaded names are exactly the eligible sheet names |
| Loader.Pick | app3.py:87-96 | the radio's choice is a loaded sheet, and with no sheet loaded the lookup fails |
| Listing.CellLeTotal | app.py:146 | `sort_values` order compares any two cells |
| Listing.CellLeTransitive | app.py:146 | `sort_values` order is transitive |
| Listing.InsertAfterHead | app2.py:196 | keeping the head of a sorted sequence before the sorted insertion into its tail keeps it sorted, with the same elements plus the inserted one |
| Listing.InsertBy | app2.py:196 | inserting into a sorted sequence keeps it sorted and adds exactly one element |
| Listing.SortBy | app2.py:194-198 | the sorted rows are ordered by the key and are a permutation of the input |
| Pivot.RowKeys | app2.py:130-136 | the pivot's index is strictly sorted and holds exactly the row keys of records with both keys |
| Pivot.InsertDistinct | app2.py:130-136 | adding a key to the sorted index keeps it sorted and distinct |
| Pivot.Summary | app2.py:130-145 | one row of counts per row label, each as wide as the column labels |
| Pivot.SummaryLabels | app2.py:130-145 | the rows are the sorted keys then TOTAL; a column is kept exactly when its raw type is the long or the short name of a mapped entry and occurs, it is labelled with that entry's short name, the columns come entry by entry in the map's order (an entry's two spellings in sorted order, under one label), then TOTAL |
| Pivot.EntryRaws | app2.py:130-139 | the raw columns of one entry are its spellings that occur, strictly increasing as the pivot sorts them |
| Pivot.KeptMember | app2.py:138-139 | one (label, raw type) column is kept exactly when some entry renames that raw type to that label and the raw type occurs |
| Pivot.KeptMembers | app2.py:138-139 | a (label, raw type) column is kept exactly when some entry renames that raw type to that label and the raw type occurs |
| Pivot.KeptEntry | app2.py:138-139 | every kept column comes from an entry whose long or short name is its raw type and whose short name is its label |
| Pivot.KeptOrder | app2.py:139 | the kept columns follow the map's order, and within an entry the raw types increase |
| Pivot.SummaryCellAt | app2.py:130-136 | a body cell is the group size of its row key and its column's raw type |
| Pivot.SummaryCells | app2.py:130-145 | each cell is the group size; the TOTAL column holds row sums and the TOTAL row column sums |
| Pivot.TotalsConsistent | app2.py:141-145 | appending TOTAL keeps the body; the TOTAL column and row are the sums, and the corner is the matrix total |
| Pivot.ColumnSumsTotal | app2.py:143-145 | summing the column sums counts every entry once |
| Pivot.ColumnSumWithTotals | app2.py:141-145 | the sum of the TOTAL column is the matrix total |
| Pivot.SumPointwise | app2.py:143 | sums of pointwise sums add |
| Pivot.SumOfZeros | app2.py:143 | the column sums of no rows add up to zero |
| Pivot.RowCountsSum | app2.py:141 | a row's counts over distinct types add up to its records of those types |
| Pivot.BodyTotal | app2.py:141-145 | the body's counts add up to the records inside it |
| Pivot.GrandTotal | app2.py:138-145 | when no spelling is shared between entries, the corner counts every record with both keys whose type is a mapped long or short name |
| Pivot.SelectionAgrees | app2.py:138-139 | a record lies in the body exactly when it has both keys and its type is a mapped long or short name |
| Pivot.KeptDistinct | app2.py:139 | when no spelling is shared between entries, the kept columns have distinct raw types, so no record is counted in two columns |
| Pivot.KeyPairsCount | app2.py:123-128 | counting records by their keys counts the rows whose key cells pass the same test |
| Pivot.KeyPairsRowKey | app2.py:123-131 | a category is a row label exactly when some row has it together with a type |
| Pivot.KeyPairsColumnKey | app2.py:123-132 | a type is a column key exactly when some row has it together with a category |
| Pivot.RowSummaryCells | app2.py:121-136 | each body cell counts the rows with that category and type |
| Pivot.RowSummaryTotal | app2.py:138-145 | the corner counts the rows with a category and a type that is a mapped long or short name |
| Filters.DefaultSelection | app.py:81-88 | with every option selected, the membership filter keeps exactly the rows that have a value |
| Filters.EmptySearchMatchesAll | app.py:121-122 | the empty search is contained in every text |
| Filters.SearchIgnoresCase | app.py:122 | a search and its upper- or lower-case spelling select the same rows |
| Filters.FilterSelects | app.py:113-122 | the filtered rows are a subsequence holding each passing row as often as the input does |
| App.KeptColumns | app.py:32 | the kept columns are increasing, each holds a value, and every column holding a value is kept |
| App.CleanSheetShape | app.py:29-33 | every row is as wide as the header, the names are stripped, and there is one row per data row with a value |
| App.CleanSheetRows | app.py:32 | no row of a cleaned sheet is empty |
| App.CleanSheetColumns | app.py:32 | no column of a cleaned sheet is empty, and a column survives exactly when some data row has a value in it |
| App.KeptColumnIff | app.py:32 | a column has a value after the empty rows are dropped exactly when it had one before |
| App.LoadAllSheets | app.py:24-37 | one tab per sheet, in order, under the sheet's name, holding the cleaned sheet |
| App.ApplyFilters | app.py:113-122 | the columns are unchanged and the rows are the order-preserving selection of the rows passing all three filters |
| App.SumCodeCounts | app.py:131-136 | the counts of distinct codes add up to the rows holding one of them |
| App.KpisBounded | app.py:129-136 | Total is the number of rows; counter k is titled with the k-th code and counts the rows whose Category cell is exactly that code; the five counters add up to at most Total |
| App.KpisWithoutCategory | app.py:135-138 | without a Category column every type counter is a dash |
| App.ShowTab | app.py:58-150 | a warning exactly for an empty sheet; otherwise the counters of the filtered rows and those rows sorted by institution |
| App2.SubtitleEmpty | app2.py:37-38 | the subtitle is empty exactly when the first row has no value or only one empty text |
| App2.LoadSheetShape | app2.py:35-44 | a sheet fails exactly when it has fewer than two rows; names are stripped cells of row 1; data are rows 2.. with a value, in order |
| App2.LoadParticipantSheets | app2.py:24-48 | the sheets whose trimmed name ends in "Participants", in order, or the first such sheet that is too short |
| App2.CollectOutcome | app2.py:31-48 | the load succeeds exactly when every eligible sheet has two rows, else it names a failing eligible sheet |
| App2.ApplyFilters | app2.py:95-101 | a search without an Institution column fails; otherwise the columns are kept and the rows are the selection passing both filters |
| App2.InstTypeMapDistinct | app2.py:113-119 | no short or long name is shared between two mapped types |
| App2.RoleTypeSummaryLabels | app2.py:121-139 | with both columns the summary exists; rows are the sorted categories that occur with a type, then TOTAL; a column is kept exactly when some row with a category has a type spelled as a mapped long or short name, labelled with the short name, in the map's order, then TOTAL |
| App2.RoleTypeSummaryCells | app2.py:121-139 | each body cell counts the filtered rows with that category and that raw type |
| App2.RoleTypeSummaryTotals | app2.py:141-145 | the TOTAL column holds each row's sum and the TOTAL row each column's sum |
| App2.RoleTypeSummaryTotal | app2.py:138-145 | the corner counts the filtered rows with a category and a mapped type, under its long or its short name |
| App2.RoleMapIgnoresCase | app2.py:166-176 | the role groups are Issuer/Acquirer exactly when the lower-cased name starts with "egov", whatever the case |
| App2.EntriesSorted | app2.py:194-199 | a block's entries are numbered from 1, sorted, and a permutation of its institutions |
| App2.ShowGroupedListing | app2.py:178-206 | the nested loops draw exactly the grouped listing |
| App2.DrawSections | app2.py:178-199 | the outer loop draws exactly the sections of the given types, or the first failure |
| App2.ShowRoleBlocks | app2.py:186-199 | the inner loop draws exactly the role blocks of one type |
| App2.RoleBlocksAreBlocksFor | app2.py:186-199 | with an Institution column the role blocks are one block per role some row has, in order, each from that role's rows |
| App2.RoleBlocksShape | app2.py:186-199 | one block per role some row has, in the role map's order, holding that role's rows |
| App2.SectionsAreSectionsFor | app2.py:178-199 | with Category and Institution columns the sections are one per type some row has, in order, each holding that type's role blocks |
| App2.SectionsShape | app2.py:178-199 | one section per type some row has, in the listing's order, holding that type's rows |
| App2.GroupedListingShape | app2.py:178-199 | with the three columns the listing succeeds; types, roles and entries are as above |
| App3.SubtitleIsFirstDate | app3.py:53-63 | the subtitle is "as of " and the date of the leftmost match, and empty exactly when nothing matches |
| App3.SubtitleFromMatch | app3.py:53-63 | a match with none further left decides the subtitle |
| App3.HeadersShape | app3.py:65 | one name per cell of row 1, stripped, and "nan" for an empty cell |
| App3.LoadSheetShape | app3.py:51-68 | a sheet fails exactly when it has fewer than two rows; data are rows 2.. with a value, in order |
| App3.LoadParticipantSheets | app3.py:41-72 | the sheets whose name contains "Participants", in order, or the first such sheet that is too short |
| App3.CollectOutcome | app3.py:46-72 | the load succeeds exactly when every eligible sheet has two rows, else it names a failing eligible sheet |
| App3.LoadedNames | app3.py:46-70 | a loaded sheet's name contains "Participants", and every such sheet is loaded under its name |
| App3.ApplyFilters | app3.py:163-172 | a search without an Institution column fails; otherwise the columns are kept and the rows are the selection passing the three filters |
| App3.IsTrueMeaning | app3.py:203-204 | a flag is set exactly when its cell spells "true" in any case; an empty cell is not set |
| App3.FindFlagColumns | app3.py:190-198 | the five required columns are found exactly when all are present, at positions holding their names |
| App3.RowRecordsDecision | app3.py:208-231 | a row emits at most one QR and one non-QR record, chosen independently, none for two false flags, each with the row's type |
| App3.RowRecordsSplit | app3.py:217-231 | the six tests are two independent groups of three |
| App3.QrRecordGroup | app3.py:217-223 | the QR tests emit one record exactly when a QR flag is set, and it is in the QR group, not the non-QR one |
| App3.NonQrRecordGroup | app3.py:225-231 | the non-QR tests emit one record exactly when a non-QR flag is set, and it is in the non-QR group, not the QR one |
| App3.AppendQr | app3.py:217-223 | the three QR tests append the QR record the flags call for |
| App3.AppendNonQr | app3.py:225-231 | the three non-QR tests append the non-QR record the flags call for |
| App3.RecordsSnoc | app3.py:208-231 | a row's records follow those of the rows before it |
| App3.ClassifyRow | app3.py:210-231 | the loop body appends exactly the row's records |
| App3.ClassifyRows | app3.py:206-231 | the loop yields the records of all rows, row after row |
| App3.RecordsCategories | app3.py:208-231 | every record carries one of the six QR or non-QR categories |
| App3.RowRecordsOnce | app3.py:208-231 | a row emits a given record at most once |
| App3.GroupsOnce | app3.py:217-231 | a QR record followed by a non-QR record holds any given record at most once |
| App3.OptionRecordOnce | app3.py:217-231 | one group of tests counts a given record once if it emitted it and not at all otherwise |
| App3.RecordPairsConcat | app3.py:233 | the records of two parts give the keys of both parts |
| App3.RecordsCount | app3.py:233-240 | a summary group size is the number of rows that emit that record |
| App3.InstTypeShortDistinct | app3.py:177-183 | no short or long name is shared between two mapped types |
| App3.QrSummary | app3.py:188-251 | the summary is shown exactly on the full sheet, without a search, with the five columns, and is the pivot of the records |
| App3.QrSummaryLabels | app3.py:233-251 | rows are the sorted categories then TOTAL, each one of the six; a column is kept exactly when some record's type is a mapped long or short name, labelled with the short name, in the map's order, then TOTAL |
| App3.QrSummaryCells | app3.py:233-245 | each cell counts the rows that emit that category with that type |
| App3.QrSummaryTotal | app3.py:242-251 | the corner counts every record whose type is a mapped long or short name |
| App3.MarkMeaning | app3.py:292-295 | ✅ exactly for a set flag, ❌ exactly when the cell's lower-cased text is "false", nothing for an empty cell |
| App3.ShowFullTables | app3.py:263-306 | the mark tables are drawn only for the full sheet, and exactly as the table function describes |
| App3.DrawTables | app3.py:265-297 | the loop draws exactly the mark tables of the given types, or the first failure |
| App3.MarkLinesOrder | app3.py:280-297 | a table has one line per row of its block, numbered from 1 and sorted by institution |
| App3.MarkLinesRows | app3.py:280-297 | the lines show the block's rows, each as often as it occurs, with their institution and the marks of their four flags |
| App3.MarkTablesAreTablesFor | app3.py:263-297 | with the five table columns the tables are one per mapped type some row has, in order, each from that type's rows |
| App3.MarkTablesShape | app3.py:263-297 | one table per mapped type some row has, in the map's order, built from that type's rows |

## Left out

- Streamlit presentation is not modelled: page setup, CSS, tabs, radios, sidebars, widgets, captions, headings, dividers and table heights. The widgets' choices are parameters.
- The `st.cache_data` memoisation keyed on the file's modification time is not modelled. Neither are the file checks (`exists`, `stat`) or Excel reading through openpyxl. The loaders start from a workbook that has already been read.
- The password gate of `app3.py` (lines 101-122) is not modelled. It depends on session state and an environment variable.
- `replace(0, "–")` in the summaries and the display renames of type headings are not modelled. They are cosmetic rewrites and leave the counts unchanged.
- The labels `app.py` shows (lines 69-72) are not modelled. They only name a widget.
- `str.contains` reads the search as a regular expression; the model reads it as literal text. The two agree on searches without regex metacharacters.
- Upper- and lower-casing and case-insensitive matching cover ASCII letters only, not Unicode case folding.
- `sort_values` is not stable, so rows with equal institutions may appear in either order. The model sorts stably and promises only what pandas does: sorted order and the same rows.
- Column names are given the `str()` form of their header cell. Header cells that hold numbers, and pandas' renaming of duplicate column names, are not modelled.
- Sheets.ColumnIndex takes the first column of a given name. `app2.py` (line 42) and `app3.py` (line 67) assign the header row with `df.columns = headers`, which keeps duplicate names; pandas then selects every column of that name, or raises. The model assumes the header names of those sheets are distinct.
- Data cells are modelled as text (`Cell` is an optional string, compared through its `str()` form). In pandas, a number or date cell is not text: `.str.contains(..., na=False)` (`app.py` line 122, `app2.py` line 101, `app3.py` line 172) treats it as no match, where the model matches its `str()` text. `sorted(...unique())` of the filter options (`app.py` lines 82 and 94, `app2.py` line 81, `app3.py` lines 147 and 153) raises `TypeError` on a column that mixes numbers and text. The model assumes every data cell holds text.
- Blank leading rows are not modelled: openpyxl may skip them before `read_excel` sees the sheet.
- The pivot of an empty record list is not modelled. pandas may raise on it; the model gives a table with only the TOTAL row.
- App3.FindTableColumns reports the first missing column of the mark table. pandas' `KeyError` lists all of them.
- The PDF line extractor is not part of this model.
