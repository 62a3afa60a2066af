# F-B ReportAutomation in Dafny

This project models the calculating core of a monthly performance report generator for
restaurant stores. The generator reads a store's profit-and-loss spreadsheet as a grid of
cells. From it the model derives:

- a series of at most 13 monthly records: sales, costs, operating cash flow, the F (cost of
  goods), L (labour) and R (fixed cost) rates, and their FLR total;
- the summary block and the year-over-year block.

The project also models:

- the alternative CSV input path and its month-over-month trend labels;
- the previous-year average row and the colour thresholds of the trend table;
- the older worksheet analyser `analyze-sheets.mjs`;
- small pieces of the front end: the comment delete/undo/add stack, editing comments by id,
  the 24-month picker, the year headings of the preview, and the Excel column names of
  `debug-sheet.mjs`.

One Dafny module corresponds to each source file:

| module | source |
|---|---|
| `DriveService` | `src/services/driveService.ts` |
| `CsvParser` | `src/utils/csvParser.ts` |
| `MonthlyTrendTable` | `src/components/MonthlyTrendTable.tsx` |
| `AnalyzeSheets` | `analyze-sheets.mjs` |
| `App` | `src/App.tsx` |
| `CommentsEditor` | `src/components/CommentsEditor.tsx` |
| `StoreSelector` | `src/components/StoreSelector.tsx` |
| `ReportPreview` | `src/components/ReportPreview.tsx` |
| `DebugSheet` | `debug-sheet.mjs` |

Shared modules:

- `Report`: the data types of `src/types/report.ts`.
- `Sheet`: cells and grids. A number cell carries its value and the text `String(number)` gives
  for it; `Sheet.NumberCell` builds that text once, when the cell is read from the workbook.
- `Text`: the JavaScript string operations used (`trim`, `split`, `parseFloat`, `String(number)`, `includes`, `replace`).
- `Numeric`: `Math.round`, one-decimal rounding, sums and averages.
- `Wrappers`: `Option` and `Result`.

## Form of the model

- Numbers are `real`. `Math.round(x)` is `Floor(x + 0.5)`, and the one-decimal rounding is `Round(x * 10) / 10`.
- A cell is a number, a text or nothing. `String(v || '')` maps nothing and the number 0 to the empty text.
- `parseFloat` is a prefix parser with these parts: leading white space, a sign, digits, and an optional fraction.
  A NaN result is `None`, and `parseFloat(x) || 0` reads it as 0.
- JavaScript `Date` month arithmetic is integer division and remainder by 12.
  `new Date(y, m - i, 1)` gives year `y + (m - i) div 12` and month `(m - i) mod 12`.
- Where the source loops and updates variables, the model has a method with a loop. Its `ensures` ties the result to a specification function, and lemmas prove the promised properties about that function. This covers:
  - `detectLatestMonthCol`, `detectLabelCol`, the item-row map and the month-column collection of `extractMonthlyRecords`;
  - the loops of `analyzeWorksheet`;
  - `generateMonthOptions`;
  - `colName`.
- The React state of `App` is the class `App.AppState`. Each `setReportData(prev => ...)` updater is a pure function of the previous state.
- Where the source divides by zero or reads past the end of a list, the model returns an error value: `CsvParser.CsvError`, or `None` for a non-finite rate.

Behaviours of the code a reader might not expect:

- The item-row map (`driveService.ts:130-133`) keeps the **last** row of a repeated item name, not the first.
- `detectLabelCol` compares the label cells **untrimmed** (`driveService.ts:108-109`).
- In the spreadsheet path, `flrTotal` rounds the sum of the **unrounded** F, L and R rates (`driveService.ts:178,190`). So `flrTotal == round1(fCostRate + lCostRate + rCostRate)` over the stored fields does not always hold there.
  - `DriveService.FlrTotalDiffersFromRateSum` shows sales 10000 with cost and labour 1004 each: the rates are 10.0 and 10.0 but the FLR total is 20.1.
  - `DriveService.FlrTotalNearRateSum` bounds the difference by 0.2.
  - In the CSV path the identity does hold: every record is built by `CsvParser.RecordOf`, and `CsvParser.RecordOfFields` proves it there.
- The year text strips only 年 and white space (`/[年\s]/g`), so `2025年度` gives `2025度`.
- `getVal` reads an empty text as 0 through `parseFloat('0')`.
- With a single CSV data row, `calculateSummary` averages over no records: the code divides by zero there and formats a non-finite percentage. The model returns `Err(NoEarlierRecords)`. With no data row at all, the code throws; the model returns `Err(NoCurrentRecord)`.

## Model

| member | source | states |
|---|---|---|
| DriveService.EntriesToMap | src/services/driveService.ts:27-36 | the store table's key set is exactly the set of store names listed |
| DriveService.CellVal | src/services/driveService.ts:49-58 | null gives nothing, plain numbers and texts stay, an object gives its cached result (resolved like a plain value) before its text, and a formula without either gives nothing; every number cell shows its `String` text; the analyser's `cellValue` (analyze-sheets.mjs:26-35) is the same function |
| DriveService.LoadGrid | src/services/driveService.ts:213-222 | at most 60 rows of exactly 50 resolved cells each, short rows padded with nothing; the grid is well formed (each number cell shows its `String` text) |
| DriveService.MonthPrefix | src/services/driveService.ts:79 | `^(\d{1,2})月` matches exactly when one or two digits precede 月, and the capture is those digits |
| DriveService.YearColumnIsNearest | src/services/driveService.ts:90-96 | the year column is the nearest one at or left of the column whose text contains `\d{4}年`, or -1 when none does |
| DriveService.FindYear | src/services/driveService.ts:90-96 | the backward loop with `break` finds the nearest year cell and strips 年 and white space |
| DriveService.LastQualifyingIsRightmost | src/services/driveService.ts:76-97 | the chosen column is the largest one whose month row matches and whose marker row is 実績 or empty; -1 when none qualifies |
| DriveService.LatestMonthIsRightmostActual | src/services/driveService.ts:65-100 | either -1 with empty year and month and no qualifying column, or the rightmost qualifying column with its captured month and its nearest year |
| DriveService.DetectLatestMonthCol | src/services/driveService.ts:65-100 | the loop that overwrites column, year and month computes the rightmost qualifying column |
| DriveService.FirstLabelColumnIsFirstMatch | src/services/driveService.ts:106-112 | the first candidate with a key item name in rows 5..14 wins, otherwise the fallback |
| DriveService.LabelColumnIsFirstCandidate | src/services/driveService.ts:106-112 | 38, 1 and 2 are tried in that order, with untrimmed exact text; the fallback is 38 |
| DriveService.ScanForKeyLabel | src/services/driveService.ts:108-109 | the row scan finds a key item in rows 5..14 of the column exactly when one is there |
| DriveService.DetectLabelCol | src/services/driveService.ts:103-113 | the candidate loop with early return gives the first matching candidate or 38 |
| DriveService.ItemRowMapLastWins | src/services/driveService.ts:129-133 | a name is in the map iff some row 5..min(rows,60)-1 has it trimmed and non-empty; the map gives the last such row |
| DriveService.IndexRowsLastWins | src/services/driveService.ts:130-133 | the map after n rows holds each non-empty name at its last row below n |
| DriveService.BuildItemRowMap | src/services/driveService.ts:129-133 | the filling loop builds exactly that map |
| DriveService.RowOf | src/services/driveService.ts:165-175 | `itemRowMap[name] ?? -1`: -1 exactly for an absent name |
| DriveService.GetVal | src/services/driveService.ts:135-140 | 0 for a negative row or column, a missing cell, an empty text or unparsable text; the number of a number cell; the parsed prefix of a text |
| DriveService.GetValOfDigits | src/services/driveService.ts:138 | a text of decimal digits reads as the number it spells |
| DriveService.ScanMonthCols | src/services/driveService.ts:146-162 | at most the budget of columns, all at or left of the start and matching the month pattern, strictly increasing |
| DriveService.ScanTakesRightmost | src/services/driveService.ts:146-162 | the scan collects every month column from the leftmost one collected up to the start, and all of them when the cap is not reached |
| DriveService.ScanEndsAtStart | src/services/driveService.ts:146-161 | when the start column is a month column, it is the last entry, with its own year or the carried one |
| DriveService.ScanCarriesYear | src/services/driveService.ts:152-160 | a column without a year label to its left takes the year of the column scanned before it, i.e. the one to its right |
| DriveService.CollectMonthCols | src/services/driveService.ts:143-162 | the right-to-left loop with `unshift` and the carried year computes that scan with the cap 13 |
| DriveService.Percent | src/services/driveService.ts:169-177 | 0 unless sales are positive; otherwise part/sales*100 |
| DriveService.MonthLabel | src/services/driveService.ts:181 | `${year.slice(2)}/${m}月` with a year, `${m}月` without |
| DriveService.DeriveAmounts | src/services/driveService.ts:182-185 | each amount is the whole number nearest to a thousandth of the raw value |
| DriveService.DeriveZeroSales | src/services/driveService.ts:169-178 | without positive sales all five rates are 0 |
| DriveService.DeriveRates | src/services/driveService.ts:169-190 | each rate is Round1 of its share of sales; R uses rent+lease+fee; the FLR total rounds the sum of the unrounded rates |
| DriveService.DeriveNoFixedCosts | src/services/driveService.ts:173-177 | with rent, lease and fee absent (0), the R rate is 0 |
| DriveService.PercentAdditive | src/services/driveService.ts:176-178 | shares of sales add up |
| DriveService.FlrTotalNearRateSum | src/services/driveService.ts:178-190 | the FLR total differs from the sum of the rounded rates by less than 0.2 |
| DriveService.FlrTotalDiffersFromRateSum | src/services/driveService.ts:178-190 | a concrete column where the FLR total is not the rounded sum of the stored rates |
| DriveService.MonthlyRecordsShape | src/services/driveService.ts:143-193 | at most 13 records, one per collected column with its label; the latest month column, when it matches, gives the last record |
| DriveService.ExtractMonthlyRecords | src/services/driveService.ts:120-194 | the imperative extraction equals the specification series |
| DriveService.PrevYearIndex | src/services/driveService.ts:231 | `find` stops at the first record containing `/${month}月` that does not start with the year's last two digits; -1 when none does |
| DriveService.PrevYearNeedsYear | src/services/driveService.ts:231 | with an empty year nothing is found, because every label starts with "" |
| DriveService.PrevYearIsNotLatest | src/services/driveService.ts:231 | the month found is never labelled as the latest month itself |
| DriveService.RateChange | src/services/driveService.ts:246-251 | the change is within 0.05 of the difference |
| DriveService.RateChangeOfRoundedRates | src/services/driveService.ts:246-251 | for rates that already have one decimal, the change is the exact difference |
| DriveService.GrowthRate | src/services/driveService.ts:267-269 | 0 without a positive base; otherwise within 0.05 of the percentage growth, with its sign |
| DriveService.SummaryFor | src/services/driveService.ts:233-252 | amounts times 1000, the rates copied; the label present iff the previous year's sales are positive, its percent exactly the growth of sales (so signed like it); F and FLR changes 0 without a previous year and within 0.05 of the differences otherwise; the profit-rate change 0 when there is no previous profit rate, otherwise within 0.05 of the difference |
| DriveService.YoyFor | src/services/driveService.ts:254-272 | previous-year row 0 without a match and the matched record's amounts times 1000 and profit rate otherwise; amounts are differences; sales and CF rates 0 when their base is at most 0, otherwise within 0.05 of the growth in percent and signed like it; the profit-rate change 0 without a previous profit rate, otherwise within 0.05 of the difference |
| DriveService.SummaryAgreesWithYoy | src/services/driveService.ts:246-270 | the summary and the year-over-year block report the same profit rate change and sales |
| DriveService.AssembleReport | src/services/driveService.ts:274-296 | report month `${year}年${month}月`, period with 度, the default comment, an empty deleted stack, summary sales of the last record |
| DriveService.ParseGridFails | src/services/driveService.ts:227 | the parse fails exactly when no column qualifies as the latest month |
| DriveService.ParseGridSeries | src/services/driveService.ts:224-296 | a successful parse has 1..13 records, the last labelled with the latest month, all with trend "-" |
| DriveService.ParseXlsxToReportData | src/services/driveService.ts:199-229 | a missing sheet is an error; otherwise the result is the parse of the loaded grid |
| Numeric.Round | src/services/driveService.ts:182 | `Math.round`: an integer within half of the value, halves up |
| Numeric.Round1 | src/services/driveService.ts:186 | a value with one decimal within 0.05 |
| Numeric.RoundMonotonic | src/services/driveService.ts:182 | rounding keeps order |
| Numeric.SumBounds | src/components/MonthlyTrendTable.tsx:48 | a sum lies between length times the bounds |
| Numeric.MeanBounds | src/components/MonthlyTrendTable.tsx:48-49 | an average lies within the bounds of its values |
| Sheet.TextOf | src/services/driveService.ts:77 | `String(v || '')`: texts stay, nothing and 0 give "", any other number its `String` text |
| Report.Column | src/components/MonthlyTrendTable.tsx:53-61 | `records.map(r => r.field)` keeps length and order |
| CsvParser.SplitLines | src/utils/csvParser.ts:10 | `split(/\r?\n/)`: one piece per newline plus one, no newline left in a piece |
| CsvParser.SplitLinesJoin | src/utils/csvParser.ts:10 | without carriage returns, joining the lines with newlines gives the text back |
| CsvParser.StripQuotes | src/utils/csvParser.ts:12 | `replace(/^"\|"$/g, '')`: at most one leading and one trailing quote removed |
| CsvParser.ParseCsvToRowsShape | src/utils/csvParser.ts:9-14 | one row per line of the trimmed text, commas plus one cells per row, each cell trimmed and unquoted |
| CsvParser.RowsToMonthlyRecords | src/utils/csvParser.ts:22-26 | the header dropped: one record per later row, in order |
| CsvParser.RecordOfFields | src/utils/csvParser.ts:32-44 | each field comes from its own place among the eight numbers, trend "-", FLR total the rounded sum of the stored F, L and R rates |
| CsvParser.RowToRecordFields | src/utils/csvParser.ts:26-45 | month from column 0, each number from its own column (unparsable or missing is 0), trend "-" |
| CsvParser.ExampleRates | src/utils/csvParser.ts:28-30 | "28.7", "35.0" and "6.4" read as 28.7, 35.0 and 6.4 |
| CsvParser.FlrTotalExample | src/utils/csvParser.ts:42 | F 28.7, L 35.0 and R 6.4 give the FLR total 70.1 |
| CsvParser.ExampleRow | src/utils/csvParser.ts:27-42 | a row with those three texts in columns 6..8 gets the FLR total 70.1 |
| CsvParser.Trend | src/utils/csvParser.ts:58-63 | 改善 iff d ≤ -0.5 (both improved bands), 維持 iff -0.5 < d ≤ 0.5, やや悪化 iff 0.5 < d ≤ 2, 悪化 iff d > 2 |
| CsvParser.TrendMonotonic | src/utils/csvParser.ts:58-63 | a larger rise never gets a better trend |
| CsvParser.CalculateMomTrends | src/utils/csvParser.ts:51-67 | same length; index 0 gets "-"; every other record gets the trend of its FLR difference to the one before |
| CsvParser.MomTrendsKeepFields | src/utils/csvParser.ts:53-65 | only the trend field changes |
| CsvParser.CalculateSummary | src/utils/csvParser.ts:72-93 | ok iff the index is valid and there is an earlier record; averages over all records but the last; percent against the average (none for a zero average); F and FLR changes against the record before, 0 at index 0 |
| CsvParser.SummaryBaselineIgnoresIndex | src/utils/csvParser.ts:77-79 | the average-based label and profit change depend only on the current record, not on its index |
| CsvParser.ChangeRate | src/utils/csvParser.ts:123-125 | none iff the base is 0 (the source has no guard and divides by zero); otherwise within 0.05 of the percentage |
| CsvParser.PrevYearIndex | src/utils/csvParser.ts:104-105 | twelve records back, or record 0 when there are fewer |
| CsvParser.CalculateYoyComparison | src/utils/csvParser.ts:98-129 | ok iff the index is valid; current and previous rows times 1000; amount differences times 1000; each rate none iff its base is 0, otherwise within 0.05 of the growth in percent; the profit-rate change within 0.05 of the difference |
| CsvParser.RateIsGrowth | src/utils/csvParser.ts:107-123 | the rate formula over amounts in thousands is the plain growth of the value (used for sales and CF) |
| CsvParser.YoyOfFirstRecord | src/utils/csvParser.ts:104-126 | for the first record the comparison is with itself: no change |
| CsvParser.CsvRecords | src/utils/csvParser.ts:139-141 | one record per newline of the trimmed text |
| CsvParser.CsvToReportData | src/utils/csvParser.ts:134-167 | store, month, period `${reportMonth}度`, the caller's date, the records with trends, empty notes |
| CsvParser.CsvToReportDataOutcome | src/utils/csvParser.ts:139-145 | ok iff at least two data rows; the summary and the year-over-year block are computed for the last record |
| MonthlyTrendTable.ClassName | src/components/MonthlyTrendTable.tsx:12-41 | each of the five tones has its own class name, all starting `cell-` |
| MonthlyTrendTable.ProfitRateClass | src/components/MonthlyTrendTable.tsx:12-17 | excellent iff ≥ 30, good iff in [25, 30), ok iff in [20, 25), warning below |
| MonthlyTrendTable.FCostClass | src/components/MonthlyTrendTable.tsx:20-25 | bands ≤ 25, ≤ 28, ≤ 30, above |
| MonthlyTrendTable.LCostClass | src/components/MonthlyTrendTable.tsx:28-33 | bands ≤ 25, ≤ 28, ≤ 32, above |
| MonthlyTrendTable.FlrClass | src/components/MonthlyTrendTable.tsx:36-41 | bands ≤ 60, ≤ 65, ≤ 70, danger above |
| MonthlyTrendTable.ProfitRateClassMonotonic | src/components/MonthlyTrendTable.tsx:12-17 | a larger profit rate never gets a worse class |
| MonthlyTrendTable.CostClassesMonotonic | src/components/MonthlyTrendTable.tsx:20-41 | a smaller cost rate never gets a worse class, for F, L and FLR |
| MonthlyTrendTable.LCostNoStricterThanFCost | src/components/MonthlyTrendTable.tsx:20-33 | the L bands are never stricter than the F bands |
| MonthlyTrendTable.CalcPrevYearAverage | src/components/MonthlyTrendTable.tsx:44-64 | month 前年度平均, trend "-"; sales, cost, labour cost and CF the mean of all but the last record rounded to an integer; the profit, F, L, R and FLR rates that mean to one decimal |
| MonthlyTrendTable.AverageIgnoresLatest | src/components/MonthlyTrendTable.tsx:45 | the latest record does not enter the average |
| MonthlyTrendTable.AverageSalesBetween | src/components/MonthlyTrendTable.tsx:48-53 | the average sales lie between the rounded bounds of the earlier sales |
| AnalyzeSheets.TotalColumnFrom | analyze-sheets.mjs:59-67 | the first column whose row 3 or row 4 contains 合計, or -1 |
| AnalyzeSheets.LatestColumn | analyze-sheets.mjs:70 | the column before the total column when that is positive, else -1 |
| AnalyzeSheets.YearLabelColumn | analyze-sheets.mjs:77-83 | the nearest column at or left containing 年, or -1 |
| AnalyzeSheets.YearLabelAt | analyze-sheets.mjs:77-83 | none without such a column, else its text without 年 and white space |
| AnalyzeSheets.FindYearLabel | analyze-sheets.mjs:77-83 | the backward loop with `break` finds that label |
| AnalyzeSheets.MonthColsOrdered | analyze-sheets.mjs:104-121 | each entry is its column's month and year, in ascending column order |
| AnalyzeSheets.MonthColsComplete | analyze-sheets.mjs:104-106 | a column is listed iff it lies in 3..end-1 and its row-4 text is `^\d+月$` |
| AnalyzeSheets.LastN | analyze-sheets.mjs:153 | `slice(-n)`: the last min(n, length) entries |
| AnalyzeSheets.CollectMonthCols | analyze-sheets.mjs:103-121 | the push loop lists exactly those columns |
| AnalyzeSheets.CellNumber | analyze-sheets.mjs:142-143 | a number cell gives its value, anything else null |
| AnalyzeSheets.MonthDataKeys | analyze-sheets.mjs:140-144 | one key `${year}_${month}` per month column |
| AnalyzeSheets.MonthDataLastWins | analyze-sheets.mjs:141-144 | a key holds the value of the last column with that key |
| AnalyzeSheets.Labels | analyze-sheets.mjs:133-134 | the trimmed category and name of every row |
| AnalyzeSheets.LastItemRow | analyze-sheets.mjs:130-146 | the last row ≥ 4 with that name that is not skipped (empty, 'null' or equal to its category) |
| AnalyzeSheets.ItemsLastWins | analyze-sheets.mjs:130-146 | an item is present iff such a row exists, and its entry comes from the last such row |
| AnalyzeSheets.FillMonthData | analyze-sheets.mjs:140-144 | the loop builds the month map |
| AnalyzeSheets.FillItems | analyze-sheets.mjs:129-146 | the row loop builds the item table |
| AnalyzeSheets.AnalyzeTotals | analyze-sheets.mjs:49-85 | null iff fewer than 4 rows; the total column is the first with 合計; latest is the one before; no latest month without it |
| AnalyzeSheets.AnalyzeMonthCols | analyze-sheets.mjs:103-153 | the result lists the last ≤ 14 month columns, ascending, each a month name inside the scan range |
| AnalyzeSheets.AnalyzeWorksheet | analyze-sheets.mjs:37-156 | the imperative analyser computes the specification result |
| App.FindIndex | src/App.tsx:102 | the first position with the id, or -1 when none |
| App.RemoveIdMembers | src/App.tsx:106 | `filter`: a section is kept iff it was there and has another id |
| App.RemoveIdAbsent | src/App.tsx:106 | a list without the id passes the filter unchanged |
| App.RemoveIdConcat | src/App.tsx:106 | filtering a concatenation filters each part |
| App.DeleteComment | src/App.tsx:99-110 | null or unknown id: unchanged; otherwise no section with the id remains, the others stay, the first match is pushed |
| App.UndoDelete | src/App.tsx:113-123 | null or empty stack: unchanged; otherwise the last deleted section is appended and popped; comments plus stack keep their multiset |
| App.AddComment | src/App.tsx:126-139 | null: unchanged; otherwise `{new-N, 新規セクション, ''}` appended |
| App.Regenerate | src/App.tsx:74-80 | the generated sections replace the comments and the stack is emptied |
| App.ReplaceComments | src/App.tsx:91-96 | the comments are replaced, nothing else changes |
| App.NewIdsDistinct | src/App.tsx:130 | different counter values give different ids |
| App.AddKeepsIdsUnique | src/App.tsx:126-139 | adding keeps ids unique while the counter is ahead of every `new-N` id present |
| App.RemoveUnique | src/App.tsx:106 | with unique ids the filter removes exactly the one matching section |
| App.DeleteThenUndo | src/App.tsx:99-123 | with unique ids, delete then undo restores the stack and the multiset of sections, the restored one last |
| App.DeleteTwice | src/App.tsx:99-110 | deleting an id twice is deleting it once |
| App.AppState.constructor | src/App.tsx:14-19 | step select, no data, not editing, counter 200 |
| App.AppState.FinishGenerate | src/App.tsx:51-56 | fetched data opens the preview; a failure returns to select |
| App.AppState.CommentDelete | src/App.tsx:99-110 | the state follows `DeleteComment`, nothing else changes |
| App.AppState.CommentUndo | src/App.tsx:113-123 | the state follows `UndoDelete` |
| App.AppState.CommentAdd | src/App.tsx:126-139 | the state follows `AddComment`; the counter advances only when there was data |
| App.AppState.RegenerateAI | src/App.tsx:63-88 | without data, key or generated sections nothing changes; otherwise `Regenerate` |
| App.AppState.CommentsChange | src/App.tsx:91-96 | the state follows `ReplaceComments` |
| App.AppState.ToggleEdit | src/App.tsx:142-144 | editing flips |
| App.AppState.Confirm | src/App.tsx:147-151 | with data: confirmed and not editing; without: unchanged |
| App.AppState.Back | src/App.tsx:154-157 | select and not editing |
| App.AddTwice | src/App.tsx:126-139 | two adds in a row append two sections with different ids |
| CommentsEditor.TitleChange | src/components/CommentsEditor.tsx:67-73 | length, order, ids and contents kept; matching sections get the title, others are unchanged |
| CommentsEditor.ContentChange | src/components/CommentsEditor.tsx:75-81 | length, order, ids and titles kept; only matching sections get the content |
| CommentsEditor.EditUnknownId | src/components/CommentsEditor.tsx:68-76 | an id matching nothing gives a list equal to the input |
| CommentsEditor.TitleChangeLastWins | src/components/CommentsEditor.tsx:67-73 | the latest title typed wins |
| CommentsEditor.EditsCommute | src/components/CommentsEditor.tsx:67-81 | title and content edits commute |
| CommentsEditor.EditsKeepIdsUnique | src/components/CommentsEditor.tsx:67-81 | edits keep ids unique |
| CommentsEditor.SectionColor | src/components/CommentsEditor.tsx:84-91 | one of the four colours, chosen by index mod 4 |
| CommentsEditor.SectionColorCycle | src/components/CommentsEditor.tsx:84-91 | the colours repeat every four sections and neighbours differ |
| CommentsEditor.UndoBar | src/components/CommentsEditor.tsx:147-150 | shown iff the stack is non-empty, with the title of its last entry |
| CommentsEditor.UndoBarAfterDelete | src/components/CommentsEditor.tsx:147-150 | after a delete the bar names the section just deleted |
| CommentsEditor.UndoBarAfterLastUndo | src/components/CommentsEditor.tsx:147 | undoing the only deletion hides the bar |
| StoreSelector.Stores | src/components/StoreSelector.tsx:15 | the store names of the table in order |
| StoreSelector.StoresAreKeys | src/components/StoreSelector.tsx:15-31 | the listed stores are exactly the table's keys; the first is かね子 |
| StoreSelector.OptionMonth | src/components/StoreSelector.tsx:22-23 | a month between 1 and 12 |
| StoreSelector.GenerateMonthOptions | src/components/StoreSelector.tsx:18-26 | exactly 24 entries, entry i the month i months before now |
| StoreSelector.FirstOptionIsNow | src/components/StoreSelector.tsx:22-23 | entry 0 is the current month |
| StoreSelector.OptionIsMonthsBefore | src/components/StoreSelector.tsx:22 | entry i is i months before now, so the entries strictly descend |
| StoreSelector.OptionStep | src/components/StoreSelector.tsx:22 | one step back lowers the month, and January goes to December of the year before |
| StoreSelector.MonthLabelInjective | src/components/StoreSelector.tsx:23 | `${y}年${m}月` determines y and m |
| StoreSelector.OptionsDistinct | src/components/StoreSelector.tsx:21-24 | all entries are distinct |
| StoreSelector.GenerateRequest | src/components/StoreSelector.tsx:34-37 | a request is made iff both store and month are non-empty, with those values |
| Text.DigitRunOfDigits | src/components/ReportPreview.tsx:40 | a greedy `\d+` takes the whole digit run |
| ReportPreview.MatchHereShape | src/components/ReportPreview.tsx:40 | a match captures two non-empty digit groups spelling `Y年M月` |
| ReportPreview.MatchHereOfLabel | src/components/ReportPreview.tsx:40 | `Y年M月` at the start is matched with Y and M as groups |
| ReportPreview.MatchPosition | src/components/ReportPreview.tsx:40 | `match` finds the leftmost position where the pattern matches, or none |
| ReportPreview.PreviousYearLabel | src/components/ReportPreview.tsx:40-43 | '' without a match; otherwise `${Y-1}年${M}月` from the first match, M as written |
| ReportPreview.YearHeadings | src/components/ReportPreview.tsx:39-43 | the current-year heading is the report month unchanged |
| ReportPreview.PreviousYearOfOption | src/components/ReportPreview.tsx:40-43 | a selector month `y年m月` gets `${y-1}年m月` |
| ReportPreview.SummaryMonth | src/components/ReportPreview.tsx:88 | a leading `\d+年` is dropped; a text without one is unchanged |
| ReportPreview.SummaryMonthOfYear | src/components/ReportPreview.tsx:88 | `Y年rest` gives `rest` |
| ReportPreview.SummaryMonthOfOption | src/components/ReportPreview.tsx:88 | a selector month `y年m月` shows as `m月` |
| DebugSheet.ColLetters | debug-sheet.mjs:31-40 | "" for n ≤ 0, otherwise capital letters only |
| DebugSheet.ColNumber | debug-sheet.mjs:31-40 | a string of capitals denotes a column, 0 only for "" |
| DebugSheet.ColName | debug-sheet.mjs:32-40 | the while loop computes the letters |
| DebugSheet.ColNumberOfLetters | debug-sheet.mjs:32-40 | reading the letters of n gives n back |
| DebugSheet.LettersOfColNumber | debug-sheet.mjs:32-40 | every string of capitals is the name of the column it denotes |
| DebugSheet.ColLettersInjective | debug-sheet.mjs:32-40 | distinct columns get distinct names |
| DebugSheet.ColLettersLast | debug-sheet.mjs:35-37 | the last letter is `'A' + (n-1) mod 26` and the rest names `(n-1) div 26` |
| DebugSheet.ColLettersExamples | debug-sheet.mjs:31 | 1 is A, 26 is Z, 27 is AA |
| DebugSheet.DebugCellValue | debug-sheet.mjs:21-28 | `(formula)` for an object with neither result nor text, otherwise the service's cell reading |
| DriveService.YearLookupNoneBelow | src/services/driveService.ts:90-96 | when no year label lies at or left of a column, none lies left of any column before it |
| Numeric.RoundSign | src/services/driveService.ts:182 | rounding keeps the sign of the value |
| Numeric.Round1OfTenths | src/services/driveService.ts:186 | a value that already has one decimal is kept by the one-decimal rounding |
| Sheet.NumberCellIsNumeral | src/services/driveService.ts:77 | the text of a number cell is a decimal numeral or empty |
| CsvParser.StripQuotesUnquoted | src/utils/csvParser.ts:12 | a cell without a quote at either end is kept |
| CsvParser.TenthsText | src/utils/csvParser.ts:28-34 | a one- or two-digit rate text with one decimal reads as that number of tenths |
| ReportPreview.SummaryMonthWithoutYear | src/components/ReportPreview.tsx:88 | a month text that does not start with a digit is shown unchanged |
| Text.TrimSpec | src/utils/csvParser.ts:11-12 | `trim`: no white space left at either end, "" iff all white space, unchanged when neither end is white space |
| Text.RemoveYearMarks | src/services/driveService.ts:93 | `replace(/[年\s]/g, '')`: no 年 or white space is left, no other character is introduced, and a text without them is unchanged |
| Text.NatToString | src/components/StoreSelector.tsx:23 | `String(n)` for a whole number: decimal digits without a leading zero, spelling n |
| Text.IntToStringInjective | src/components/ReportPreview.tsx:42 | different whole numbers get different decimal texts |
| Text.ParseInteger | src/services/driveService.ts:138 | `parseFloat` of a digit string is its value |
| Text.ParseDecimal | src/utils/csvParser.ts:28-34 | `parseFloat` of `digits.digits` is its decimal value |
| Text.SplitJoin | src/utils/csvParser.ts:10-11 | `split` then `join` with the same separator gives the text back, and there is one piece more than separators |

## Left out

- Network and file I/O is not modelled. This covers `fetchXlsxBuffer`, `fetchReportData`, the Netlify function, the `main` functions of both scripts, and the `FileReader` of the uploader. Loading a workbook is an outside library: `DriveService.ParseXlsxToReportData` takes the sheets as lists of raw cell values, and `AnalyzeSheets.AnalyzeWorksheet` takes the loaded grid.
- The uploader's default month (`DataUploader.tsx:26-30`) is the one-month-back case of `StoreSelector.MonthOption`; it has no member of its own.
- The Gemini comment service (`geminiService.ts`) and `hasApiKey` become parameters of `App.AppState.RegenerateAI`. `handleGenerate`'s development sample data and its AI call are left to the caller of `App.AppState.FinishGenerate`.
- Number formatting is not modelled: `toFixed(1)` and `toLocaleString` inside the sales labels. `SummaryData.salesYoyLabel` records only whether a label is shown and the percentage it formats.
- `createdDate` uses the wall clock and the locale, so it is a parameter.
- `parseFloat` exponents, `Infinity` and hexadecimal forms are not modelled; only decimal prefixes are.
- IEEE floating-point artefacts are not modelled: the model computes over exact reals.
- In JavaScript the CSV year-over-year rates divide by zero without a guard and give non-finite values. The model returns `None` for these.
- `String(number)` is modelled as plain decimal text, without exponent notation.
- Rendering is not modelled: the JSX of every component, `renderHighlightedText`, `SummarySection`, `YoyComparisonTable`, the superseded `NotesEditor`, and the loading flags `isLoading` and `isGeneratingAI`.
- The first month-column loop of `analyzeWorksheet` (`analyze-sheets.mjs:91-99`) fills `monthCols`, which is never used afterwards, so it is not modelled.
- `AnalyzeSheets.FillItems` takes the trimmed labels of every row as a precomputed input. They are computed by `AnalyzeSheets.Labels` from the grid, and the result is the same.
- The CSV report is its own record, `CsvParser.CsvReport`, because `csvToReportData` returns fields that `ReportData` does not have.
- The sample data file is a fixture, not logic.
- `App.AppState`: the counter `nextCommentId` is a field of the state, not a module-wide variable shared by every mounted `App`. React's double invocation of updaters in development mode is not modelled.
- `CsvParser.CalculateSummary`: with a single data row the source does not throw; it returns a summary whose average-based fields are NaN. The model returns `Err(NoEarlierRecords)` for that input, and so does `CsvParser.CsvToReportDataOutcome` for the whole report.
- `AnalyzeSheets.AnalyzeWorksheet` takes any grid, so nothing ties a number cell's text to its value there. The analyser reads cells the way `DriveService.CellVal` does, and every grid that function builds is well formed (`Sheet.WellFormedGrid`).
- `DriveService.CellVal`: a cached formula result that is itself an object (an error value, say) is not modelled; a result is `null`, a number or a text.
- `MonthlyTrendTable.CalcPrevYearAverage`: requires at least two records, because with fewer the source divides by zero.
- `ReportPreview.PreviousYearLabel`: `parseInt` of a very long digit string loses precision in JavaScript. The model keeps the exact value.
