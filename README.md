# FTS analysis backend — failure classification and ranking, in Dafny

The backend accepts a test-result spreadsheet and returns the tests that failed most
often, each broken down by product. This project models the decision logic of
`app.py` once the spreadsheet has been parsed:

- **Table shaping** (`analyse_file`, app.py:45-54). The product code is the first
  eight characters of `File name`, and it becomes the row index. A `Product Code`
  column already in the sheet is overwritten and then dropped by `set_index`, so it
  is neither a test column nor an input to anything. Rows 0-7 are the
  benchmark block and the remaining rows are the data block. In both blocks,
  infinities and empty cells are replaced by 0.
- **Classification** (`find_failed_tests`, app.py:21-30). For one row, the columns
  of `columns[2:]` whose reading coerces to a number strictly above the
  `'Upper li'` value or strictly below the `'Lower li'` value. The labels are
  truncated because the index keeps only eight characters.
- **Aggregation and ranking** (app.py:57-77). Only rows judged `NG` are kept.
  Failing tests are discovered in first-seen order. For each test, the model
  counts the NG rows that cite it and breaks that count down per product code, in
  ascending code order. The entries are stable-sorted by total, largest first, and
  the first fifteen are kept.

Modules, leaf first:

- `Basics` (basics.dfy): `Option`.
- `Seqs` (seqs.dfy): de-duplication in first-seen order.
- `Lex` (lex.dfy): Python's string order.
- `Cells` (cells.dfy): cells, numeric coercion and clean-up.
- `Classify` (classify.dfy): `find_failed_tests`.
- `Aggregate` (aggregate.dfy): discovery, counting, sorting and truncation.
- `Analysis` (analysis.dfy): the body of `analyse_file`.

The source works by mutation, so each step has an imperative form. Each
imperative method is proved equal to a specification function, and the
properties are proved about those functions:

- `FindFailedTests` is the column loop of app.py:22-29.
- `FillInvalid` is the in-place `replace`/`fillna` on an array of rows.
- `SelectFailing` is the NG filter plus the row-wise `apply`.
- `RankFailures` is the nested loops of app.py:60-75, including the re-sort on
  every iteration.
- `AnalyseFile` chains these steps.

Where the code departs from what the system is meant to do, the model follows
the code:

- A blank bound is compared as 0, because `fillna(0)` runs first. It is not
  "unbounded".
- A blank reading is compared as 0, not skipped.
- A bound that does not coerce to a number disables only its own side of the
  band, not the whole column.
- The clean-up of infinities and blanks always runs. There is no switch for it.
- A sheet without NG rows ends in the 500 path, not with an empty list (see
  Findings).

## Model

| member | source | states |
|---|---|---|
| `Seqs.Unique` | app.py:61 | `unique()` keeps each exploded value once: the result has no repetitions, and its elements are exactly those of the input |
| `Seqs.UniqueFirstSeen` | app.py:61 | `unique()` lists values in the order of their first occurrence in the exploded column |
| `Lex.Insert` | app.py:65 | adding a product code to the groupby keys keeps them strictly ascending, adds that code and drops none |
| `Cells.Normalize` | app.py:51-54 | a cleaned cell is never missing or infinite, and it always coerces to a number or is text; numbers and text pass through unchanged |
| `Cells.NormalizeRow` | app.py:51-54 | cleaning a row keeps its length and cleans every cell |
| `Cells.NormalizeRows` | app.py:51-54 | cleaning a block keeps its row count and cleans every row |
| `Cells.NormalizeProperties` | app.py:51-54 | cleaning is idempotent, and a blank or infinite cell reads as the number 0 |
| `Cells.GreaterIsStrictOrder` | app.py:28 | the comparison with infinities is irreflexive, asymmetric and transitive |
| `Cells.ParseRejectsForeign` | app.py:25-27 | in the decimal subset the model coerces, text with a character other than a digit, point or sign (the `Judgement` value "NG", say) does not coerce to a number |
| `Cells.ParseShowNat` | app.py:25-27 | whole-number text coerces to the number it spells, unsigned, with "+" or with "-" |
| `Cells.ParsePointed` | app.py:25-27 | unsigned text of digits, a point and at least one digit reads as its whole part plus its digits after the point over the matching power of ten |
| `Cells.ParseFraction` | app.py:25-27 | such text ("10.5", ".5") coerces to that value, also with a "+" sign, and to its negation with a "-" sign |
| `Cells.ParseTenAndAHalf` | app.py:25-27 | the text "10.5" coerces to 10.5 |
| `Classify.FindFailedTests` | app.py:21-30 | the column loop returns exactly the failed-test list of the row |
| `Classify.FailedUpToBounds` | app.py:23-29 | after the first `n` columns, every reported name is a column from position 2 up to `n` |
| `Classify.FailedUpToOrdered` | app.py:23-29 | after the first `n` columns, the reported names follow column order |
| `Classify.FailedUpToMembers` | app.py:23-29 | after the first `n` columns, a column among them is reported if and only if it is a test column whose cell breaches its band |
| `Classify.FailedTestsExactly` | app.py:23-29 | a column is reported if and only if it is in `columns[2:]` and its cell breaches its band; the list follows column order and has no repetitions |
| `Classify.BandIsStrict` | app.py:28 | a reading fails if and only if it is above the upper or below the lower bound; a reading equal to either bound of a proper band passes |
| `Classify.NonNumericNeverBreaches` | app.py:24-28 | a reading that does not coerce is never reported, and neither is any reading when both bounds fail to coerce |
| `Classify.ScenarioAboveUpper` | app.py:21-30 | with upper 10, lower 0 and reading 15 in the one test column, the list is `["T1"]` |
| `Aggregate.ExplodeMembers` | app.py:61 | a value is in the exploded column if and only if some NG row lists it, or it is the placeholder and some NG row has an empty list |
| `Aggregate.DiscoverEmpty` | app.py:60-61 | nothing is discovered if and only if there are no NG rows, so the loop body never runs exactly then |
| `Aggregate.DiscoverProperties` | app.py:61 | discovery lists each such value once, in first-seen order, and is empty if and only if there are no NG rows |
| `Aggregate.CountInDistinct` | app.py:66 | in a list without repetitions, `count(test)` is 1 if the test is listed and 0 otherwise |
| `Aggregate.FailedRowsMultiplicity` | app.py:62 | each citing NG row is selected as many times as it occurs among the NG rows, and no other row is selected |
| `Aggregate.FailedRowsMembers` | app.py:62 | the rows selected for a test are exactly the NG rows whose list contains it, each kept as many times as it occurs among the NG rows |
| `Aggregate.FailedRowsCount` | app.py:62 | the number of rows selected for a test is the number of NG rows that cite it |
| `Aggregate.OccurrencesCountRows` | app.py:62-66 | when no list repeats a name, the occurrences counted for a product are the NG rows with that product code that cite the test |
| `Aggregate.BreakdownEntries` | app.py:64-67 | the per-product loop makes one count per groupby key, in key order, each the occurrences for that key |
| `Aggregate.EntryCounts` | app.py:62-71 | when no list repeats a name, `total_failures` is the number of NG rows citing the test, and each product's `failures` is the number of those rows with its code |
| `Aggregate.GroupCodes` | app.py:65 | the groupby keys are strictly ascending |
| `Aggregate.GroupCodesMembers` | app.py:65 | the groupby keys are exactly the product codes of the rows; rows without a code are dropped |
| `Aggregate.GroupCodesDistinct` | app.py:65 | the groupby keys have no repetitions |
| `Aggregate.PlaceholderEntry` | app.py:61-73 | the placeholder that `explode()` emits for an empty list is cited by no row, so it gets total 0 and no products |
| `Aggregate.DiscoveredTestCounted` | app.py:61-71 | every discovered test name has a total of at least 1 |
| `Aggregate.EntryProductCodes` | app.py:64-67 | an entry's product codes are strictly ascending, and they are exactly the codes of the rows citing the test |
| `Aggregate.EntryCountsAddUp` | app.py:62-71 | the per-product failures sum to the cited rows that have a product code, so they equal `total_failures` when every NG row has a code |
| `Aggregate.EntriesForShape` | app.py:60-73 | `test_failures` has one entry per discovered value, in discovery order, and each entry is the one for that value |
| `Aggregate.InsertDesc` | app.py:75 | inserting into a list sorted by total (largest first) keeps it sorted and adds exactly one element |
| `Aggregate.InsertDescPermutes` | app.py:75 | insertion adds the new entry to the multiset of entries and changes nothing else |
| `Aggregate.SortDesc` | app.py:75 | the sorted list is ordered by total, largest first, and has the input's length |
| `Aggregate.SortDescPermutes` | app.py:75 | sorting is a permutation of the entries |
| `Aggregate.SortDescStable` | app.py:75 | for every total, the entries with that total keep their relative order (Python's sort is stable) |
| `Aggregate.Take` | app.py:75 | `[:n]` keeps a prefix of length `min(n, len)` |
| `Aggregate.ReportShape` | app.py:75 | the report holds at most 15 entries, 15 whenever at least 15 values were discovered; it is sorted by total, largest first, and is the head of the sorted entries |
| `Aggregate.ReportMembers` | app.py:60-75 | every reported entry is the entry of a discovered value |
| `Aggregate.ReportCounts` | app.py:62-71 | in every reported entry the per-product counts add up to at most the total, and to exactly the total when every NG row has a product code |
| `Aggregate.ReportTests` | app.py:61-71 | every reported test lies in any list of names that covers all tests the NG rows name (such as `columns[2:]`), and its total is at least 1 |
| `Aggregate.ReportEmpty` | app.py:60-75 | the report is empty if and only if there are no NG rows |
| `Aggregate.TwoTestsDiscover` | app.py:61 | two NG rows failing two different single tests discover them in row order |
| `Aggregate.TwoTestsSelect` | app.py:62 | each of those tests selects only the row that fails it |
| `Aggregate.TieSorted` | app.py:75 | two entries with equal totals keep their order through the sort and the `[:15]` |
| `Aggregate.TwoTestsReport` | app.py:60-75 | any two NG rows failing two different single tests report those tests in row order, each with total 1 for its row's product |
| `Aggregate.ScenarioTieKeepsDiscoveryOrder` | app.py:75 | two tests with equal totals come out in discovery order |
| `Aggregate.SingleTestReport` | app.py:60-75 | when exactly one value is discovered, the report is that value's entry |
| `Aggregate.SingleCitingEntry` | app.py:62-71 | a test cited by one NG row, with one product code, gets total 1 and one product with 1 failure |
| `Aggregate.TwoProductsEntry` | app.py:62-71 | the five rows' entry for "T2" has total 5, split 3 and 2 between the two products |
| `Aggregate.TwoProductsDiscover` | app.py:61 | five NG rows all failing "T2" discover only "T2" |
| `Aggregate.TwoProductsGroups` | app.py:62-65 | those rows all cite "T2", and their groupby keys are the two codes in ascending order |
| `Aggregate.TwoProductsCounts` | app.py:66 | the two products fail "T2" three times and twice |
| `Aggregate.ScenarioTwoProducts` | app.py:60-75 | the report is one entry: total 5, split 3 and 2 between the products |
| `Aggregate.OneRowReport` | app.py:60-75 | one NG row failing "T1" gives one entry with total 1 for its product |
| `Aggregate.ScenarioEmptyListPlaceholder` | app.py:58-73 | an NG row with an empty list yields the placeholder entry with total 0 |
| `Aggregate.EntriesForStep` | app.py:60-73 | one more pass of the loop appends exactly that test's entry to `test_failures` |
| `Aggregate.CountProducts` | app.py:64-67 | the per-product loop returns one count per product code, in ascending code order, each the number of times the rows of that code name the test |
| `Aggregate.RankFailures` | app.py:60-75 | the nested loops leave `top_failures` unbound if and only if there are no NG rows, and otherwise it equals the report |
| `Analysis.ProductCode` | app.py:45 | `.str[:8]` gives a code if and only if the cell is text; the code is that text's prefix, 8 characters long, or the whole text when shorter |
| `Analysis.DataBlock` | app.py:48-52 | the data block is rows 8 onwards, each one cleaned |
| `Analysis.DataCodes` | app.py:45-49 | the data block's index holds the product code of each data row |
| `Analysis.Indexed` | app.py:45-46 | `set_index('Product Code')` leaves a rectangular table with distinct headers and the same number of rows; its columns are those of the sheet except `Product Code`, namely the sheet's header with that one position removed; a sheet without that column is unchanged |
| `Analysis.IndexedOrder` | app.py:45-46 | the columns left after indexing keep their order from the sheet, so `columns[2:]` is read in sheet order |
| `Analysis.IndexedCell` | app.py:45-46 | every other column keeps its cell in every row |
| `Analysis.IndexedCodes` | app.py:45-46 | the product codes read from `File name` are the same before and after indexing |
| `Analysis.IndexedWellFormed` | app.py:45-46 | indexing keeps the sheet well formed: distinct headers and locatable limit rows |
| `Analysis.IndexedNamed` | app.py:45-46 | every NG row's `File name` is text after indexing if and only if it was before |
| `Analysis.StaleIndexDropped` | app.py:45-46 | a `Product Code` column put in front of a sheet leaves distinct headers, and indexing removes it entirely |
| `Analysis.StaleIndexWellFormed` | app.py:45-46 | the sheet with that extra column is still well formed |
| `Analysis.StaleIndexSameOutcome` | app.py:45-77 | the sheet with that extra column gets the same outcome as the sheet without it |
| `Analysis.StaleIndexIgnored` | app.py:45-77 | whatever a pre-existing `Product Code` column holds, the sheet is well formed and its outcome is the one of the sheet without that column |
| `Analysis.LimitRow` | app.py:25-26 | `.loc['Upper li']` and `.loc['Lower li']` read a benchmark row (one of rows 0-7) whose index is that label |
| `Analysis.TableLimitsRows` | app.py:25-26 | the upper and lower bounds are the cleaned 'Upper li' and 'Lower li' benchmark rows, cell for cell |
| `Analysis.BlankBoundReadsZero` | app.py:53-54 | for every sheet and column, a blank or infinite bound reads as 0 after `fillna(0)`, and a number or a piece of text is used as it stands |
| `Analysis.NgIndices` | app.py:57 | the positions of the NG data rows: each one in range and judged "NG", strictly increasing, and every NG row's position is listed |
| `Analysis.FailingRowsInOrder` | app.py:57-58 | the classified rows are, one for one and in order, the NG data rows at those positions with their codes and failed-test lists |
| `Analysis.FailingRowsSound` | app.py:57-58 | every classified row is an NG data row with its own code and failed-test list |
| `Analysis.FailingRowsComplete` | app.py:57-58 | every NG data row is classified with its own code and failed-test list |
| `Analysis.FailingRowsExactly` | app.py:57-58 | every data row judged "NG" is classified with its own code and failed-test list, no other row is, and there are none if and only if no data row is judged "NG" |
| `Analysis.JudgementSurvivesCleaning` | app.py:51-57 | cleaning never creates or removes an "NG" judgement |
| `Analysis.DataJudgement` | app.py:51-57 | a cleaned data row is judged "NG" if and only if the sheet row is |
| `Analysis.FailingRowsCount` | app.py:57-58 | there are exactly as many classified rows as positions judged "NG" |
| `Analysis.FailingRowsNonEmpty` | app.py:57-58 | one data row judged "NG" is enough for the classified list to be non-empty |
| `Analysis.NoneJudgedNoNgRows` | app.py:57-61 | when no row from 8 onwards is judged "NG", no row is classified |
| `Analysis.JudgedRowNgRows` | app.py:57-61 | a row from 8 onwards judged "NG" makes the classified list non-empty |
| `Analysis.NoNgRows` | app.py:57-61 | no row is classified if and only if no row from 8 onwards is judged "NG" |
| `Analysis.SheetNoNgRows` | app.py:45-61 | after indexing, no row is classified if and only if no sheet row from 8 onwards is judged "NG" |
| `Analysis.FailingRowsLists` | app.py:23-29 | each classified row's list has no repetitions and names only columns of `columns[2:]`; when every NG data row has a product code, so does every classified row |
| `Analysis.NgRowsLists` | app.py:23-29 | each NG row's list names only columns of `columns[2:]`, without repetitions |
| `Analysis.NamedRowCoded` | app.py:45-57 | an NG data row whose `File name` is text has a product code |
| `Analysis.NgRowsNamed` | app.py:45-58 | when every NG row's `File name` is text, every classified row has a product code |
| `Analysis.AnalyseOutcome` | app.py:45-81 | a missing `File name` column, a missing `Judgement` column, or no NG data row each give the 500 path; otherwise the result is the report of the NG rows |
| `Analysis.AnalyseReport` | app.py:45-77 | a successful result has at most 15 entries, largest total first; each is the entry of a discovered value; each reported test is a column of `columns[2:]` after indexing (never `Product Code`) with total at least 1; per-product counts never exceed the total, and they equal it when every NG row's `File name` is text |
| `Analysis.ScenarioSheetCodes` | app.py:45-46 | in a nine-row sheet, "Upper limit" and "Lower limit" are indexed as "Upper li" and "Lower li" |
| `Analysis.ScenarioSheetWellFormed` | app.py:25-26 | that sheet has distinct headers, and each of its two labels names exactly one benchmark row |
| `Analysis.ScenarioSheetLimits` | app.py:25-26 | its cleaned limit rows give "T1" the band [0, 10]; the blank cells of the limit rows read 0 |
| `Analysis.ScenarioSheetData` | app.py:48-52 | the sheet's one data row is unchanged by cleaning, and its code is "ABCDEFGH" |
| `Analysis.ScenarioSheetNgRows` | app.py:45-58 | that sheet is well formed, and its one NG row is classified as failing "T1" for product "ABCDEFGH" |
| `Analysis.ScenarioSheetReport` | app.py:45-77 | that sheet, with one NG row reading 15, reports "T1" once for product "ABCDEFGH" |
| `Analysis.BenchmarkOnlySheetWellFormed` | app.py:45-48 | a sheet holding only the two limit rows is well formed, with both named columns |
| `Analysis.BenchmarkOnlySheetFails` | app.py:60-77 | a sheet with only its two limit rows ends in the 500 path |
| `Analysis.AnalyseCorrected` | app.py:60-77 | with `top_failures` assigned after the loop, no NG rows gives an empty report, and every other outcome is unchanged |
| `Analysis.FillInvalid` | app.py:51-54 | the in-place clean-up leaves every row of the block cleaned |
| `Analysis.SplitAndClean` | app.py:48-54 | the two blocks are rows 0-7 and rows 8 onwards, each cleaned |
| `Analysis.SelectFailing` | app.py:57-58 | the filter-and-classify loop returns exactly the NG rows with their failed-test lists |
| `Analysis.AnalyseFile` | app.py:45-77 | the whole imperative sequence computes exactly the analysis outcome |

## Left out

- The HTTP layer is not modelled: `read_root`, the `/analyse` and `/plot` routes,
  the `.xlsx` filename check (app.py:38), `UploadFile.read`, the `HTTPException`
  mapping and logging. `Err` in the model stands for the 500 response.
- `pd.read_excel` (app.py:43) is a library parse. The model takes the parsed
  table as input. It assumes distinct header names, because `read_excel` renames
  duplicates.
- `.loc` with a missing or repeated `'Upper li'`/`'Lower li'` label is excluded by
  the precondition `LimitsLocatable`. In the source, a missing label raises
  `KeyError` (500) once an NG row is classified. A repeated label makes `.loc`
  return a Series.
- `get_plot`, `latest_output_path`, matplotlib and the chart mode are not
  modelled. Nothing in this file assigns the plot path, so `/plot` always
  answers 404.
- JSON rendering is not modelled. That includes whether the NaN test name of
  the placeholder entry (`Key.NoTest`) can be serialized.
- Floating point is not modelled: cells hold reals, and NaN is `None`.
  Booleans and dates are not modelled as cell kinds.
- `Cells.ParseDecimal` models `pd.to_numeric` on text. It accepts an optional
  sign, digits and an optional fraction. It does not accept exponents,
  surrounding whitespace, the words "inf" or "nan", or thousands separators.
- pandas copy/view semantics are not modelled. The model applies the in-place
  `replace`/`fillna` to the benchmark and data blocks themselves, which is what
  the later lines read.

## Findings

| source | as written | input that shows it | evidently intended | confidence | as-written member | corrected member |
|---|---|---|---|---|---|---|
| app.py:60-77 | `top_failures` is assigned only inside the loop over discovered tests (line 75). With no NG rows the loop never runs, line 77 reads an unbound name, and the request ends in the 500 path | a sheet with only its two limit rows, or with no data row judged "NG" | respond with an empty `tests` list | not executed; high | `Analysis.BenchmarkOnlySheetFails` | `Analysis.AnalyseCorrected` |
