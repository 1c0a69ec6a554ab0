# Personal finance statement import: a Dafny model

This project models the import core of a small personal-finance dashboard. The
dashboard reads credit-card and bank statements downloaded from American Express,
Chase and Discover, or any CSV with recognisable columns. It turns each file into a
table of transactions (Date, Description, Amount, Source, Category). It assigns
categories from a fixed table of description patterns and sums the amounts into a
category × month pivot table.

The model has these modules:

- `BankParsers` covers bank_parsers.py:
  - the four parsers' `can_parse` tests;
  - each bank's column resolution in `_parse_csv`;
  - `standardize_dataframe`;
  - the generic parser's column guessing;
  - `MultiStatementParser`: the file dispatch, the batch, and the de-duplicated scan.
- `Ofx` holds the OFX/QFX transaction extractor. It is written out four times in the
  source: once per bank parser and once in the export parser. The copies differ only
  in the Source label, so there is one model with the label as a parameter.
- `AmexExport` covers amex_export_parser.py: the CSV export with its column renaming,
  the extension dispatch, and the candidate loop of `get_transactions`.
- `Categorize` covers data_processor.py `categorize_transactions`, with the pattern
  table in its declaration order.
- `Pivot` covers data_processor.py `create_pivot_table`.
- `Months` covers utils.py `get_months_between_dates`.
- `Downloads` covers the age filter of the `find_recent_exports` scans.
- `Records`, `Text`, `Seqs` and `Wrappers` hold shared helpers:
  - the transaction record and dates;
  - `%Y-%m` keys and string order;
  - ASCII lower-casing and substring search;
  - first and last match, de-duplication, sorting;
  - Option and Result.

Modelling choices:

- Amounts are whole cents (`int`).
- What pandas and Python convert is decided by an oracle record, `Records.Parsers`:
  - `pd.to_datetime`, `pd.to_numeric`, `float()`, `int()`;
  - the `object` dtype test.
- The model is exact about which conversions are asked for, of which cells, and what
  happens when they fail.
- Columns are identified by position.
- A missing CSV cell reads as the empty string and converts to nothing (NaN).
- Loops that update variables are `method`s with loop invariants. Each is proved equal
  to a function, and the function's meaning is proved in lemmas.
- `categorize_transactions` updates a copied table in place, so it works on an `array`.
- `MultiStatementParser` is a class whose field is its list of parsers.

Where the design description and the code differ, the model follows the code:

- **OFX errors.** A transaction in an OFX file with a missing DTPOSTED or TRNAMT tag is
  skipped. A value that is present but does not convert makes `datetime()` or `float()`
  raise, and the whole file fails (`Ofx.ReadBlockMeaning`, `Ofx.ParseTextMeaning`).
- **Pivot column order.** Pivot columns are sorted as strings, not by date. With
  calendar dates the two orders agree (`Pivot.PivotColumnsChronological`). "Total" is
  always the last column (`Pivot.PivotColumns`).
- **Chase files go to Amex.** One of Amex's CSV signatures is `transaction date`. Amex is
  asked first, so a Chase activity export is parsed by the Amex parser
  (`BankParsers.ChaseHeaderClaimedByAmex`).
- **Walmart and Target.** Descriptions mentioning walmart or target are never Shopping.
  They are not always Groceries: a Dining pattern listed earlier wins
  (`Categorize.WalmartDeliIsDining`).

## Model

| member | source | states |
|---|---|---|
| BankParsers.ExtensionOfNamedFile | bank_parsers.py:137 | a path `stem.e` (stem not ending in `.` or `/`, `e` free of both) has extension `.e`, lower-cased, as `os.path.splitext(file_path.lower())` gives it |
| BankParsers.DotFileHasNoExtension | bank_parsers.py:569-570 | a dot-file `dir/.csv` has no extension, so not even the generic parser claims it |
| BankParsers.CanParse | bank_parsers.py:133-166 | a claimed file has a supported extension; a bank parser claims only a file it could read; the generic parser claims exactly the `.csv` files (Chase 279-312, Discover 424-455 and generic 565-572 are the same function with their own literals) |
| BankParsers.CsvSignatureClaims | bank_parsers.py:143-156 | any one of a bank's literals in the lower-cased first five lines of a `.csv` makes that bank claim it |
| BankParsers.ChaseHeaderClaimedByAmex | bank_parsers.py:145-156 | a CSV whose first lines hold Chase's activity header is claimed by both Amex and Chase, and dispatch picks Amex (position 0) |
| BankParsers.AmexClaimsFirst | bank_parsers.py:661-684 | whatever Amex claims is dispatched to Amex, the first parser |
| BankParsers.BankColumns | bank_parsers.py:196-207 | each role's column is the last column of the header taking that role under the date-before-description-before-amount `elif` chain; the three columns differ; the result is an error exactly when some role has no column |
| BankParsers.ResolveBankColumns | bank_parsers.py:196-207 | the column loop, in which a later match overwrites an earlier one, computes `BankColumns` |
| BankParsers.Standardize | bank_parsers.py:86-124 | the kept rows are exactly the rows whose date and amount convert; each carries the parser's Source label and the Uncategorized category; rows are never added |
| BankParsers.StandardizeAppend | bank_parsers.py:104-122 | standardising works row by row: it distributes over concatenation, so order is kept |
| BankParsers.StandardizeOne | bank_parsers.py:104-122 | one row survives `dropna` exactly when its date and amount convert, and it keeps the converted amount with its sign |
| BankParsers.GenericColumns | bank_parsers.py:590-645 | a guessed date column converts entirely to dates and a guessed amount column entirely to numbers; failure is the "could not identify" error |
| BankParsers.GenericDateAndAmountIff | bank_parsers.py:590-633 | the generic parser finds a date column exactly when some column is all dates, and an amount column exactly when some column is all numbers |
| BankParsers.GenericNamePass | bank_parsers.py:591-614 | the `if not x_col and ...` name pass gives each role the first column whose name matches and, for date and amount, whose values convert |
| BankParsers.FirstDateColumn | bank_parsers.py:617-624 | the content fallback takes the first column that converts to dates |
| BankParsers.FirstNumericColumn | bank_parsers.py:626-633 | the content fallback takes the first column that converts to numbers |
| BankParsers.FirstTextColumn | bank_parsers.py:636-641 | the description fallback takes the first `object` column that is neither the date nor the amount column |
| BankParsers.InferGenericColumns | bank_parsers.py:574-645 | the passes in source order compute `GenericColumns` |
| BankParsers.DispatchFirstClaimant | bank_parsers.py:678-693 | the first parser whose `can_parse` holds parses the file, and its failure is the file's failure named with the file; later parsers are not consulted |
| BankParsers.StandardFallbackOnlyForNonCsv | bank_parsers.py:686-690 | with the standard parsers every `.csv` is claimed, so the last-resort generic parser is reached only for other extensions, and for an unsupported extension the outcome is the generic parser's, named with the file |
| BankParsers.SuccessesEmptyIff | bank_parsers.py:705-715 | no table is collected exactly when every file fails, and every file lands in exactly one of the two lists |
| BankParsers.MultiStatementParser.constructor | bank_parsers.py:659-666 | the parsers are Amex, Chase, Discover, Generic, in that order |
| BankParsers.MultiStatementParser.ParseFile | bank_parsers.py:668-693 | the dispatch loop computes `FileOutcome` |
| BankParsers.MultiStatementParser.ParseMultipleFiles | bank_parsers.py:695-731 | no files is an error; the batch fails exactly when every file fails, carrying each failure in file order; otherwise the result is sorted by date and is a permutation of all parsed rows |
| BankParsers.MultiStatementParser.FindRecentStatements | bank_parsers.py:733-752 | the result holds each path any parser's scan found, exactly once |
| Downloads.Recent | bank_parsers.py:78-82 | a path is kept exactly when it was found with a modification time at or after the cutoff; nothing is added |
| Downloads.FilterRecent | bank_parsers.py:60-82 | the filtering loop with the cutoff `now - days_back` computes `Recent` (amex_export_parser.py:29-54 is the same loop) |
| Downloads.EarlierCutoffKeepsMore | bank_parsers.py:78-82 | an earlier cutoff keeps at least as many files |
| Downloads.LongerLookbackFindsMore | bank_parsers.py:60-82 | a longer look-back never finds fewer files |
| Ofx.BlocksFrom | bank_parsers.py:227 | the `<STMTTRN>(.*?)</STMTTRN>` matches are non-greedy: no block contains a closing tag |
| Ofx.TagFrom | bank_parsers.py:231 | a found tag value was written `<TAG>value</TAG>` in the block, has no newline (no DOTALL) and no closing tag |
| Ofx.ReadBlockMeaning | bank_parsers.py:229-262 | a block without a DTPOSTED value of 8 or more characters is skipped, and so is one with a valid date and no TRNAMT value (the `continue`); a DTPOSTED of 8 or more characters whose `int()` parts fail or that `datetime()` rejects raises InvalidDate; a valid date with a TRNAMT that `float()` rejects raises InvalidAmount; a valid date with a converting TRNAMT gives a row; nothing else raises; a row's year, month and day are `int()` of DTPOSTED's characters 0-4, 4-6 and 6-8, at midnight, with its NAME, MEMO or "Unknown", its converted TRNAMT, the Source label and Uncategorized |
| Ofx.ScanMeaning | bank_parsers.py:229-262 | the loop fails exactly when some block raises, with the first such block's error; otherwise it yields the rows of the blocks in order |
| Ofx.ParseTextMeaning | bank_parsers.py:215-270 | a file parses exactly when no block raises and some block yields a row, and then its rows are the blocks' rows in order; the only errors are bad date, bad amount and no transactions |
| Ofx.ExtractFromBlocks | bank_parsers.py:229-267 | the appending loop as written computes the scan followed by the "no transactions" check |
| Ofx.ExtractTransactions | bank_parsers.py:215-270 | the extractor on a file's text computes `ParseText` (amex_export_parser.py:116-178 with no Source label) |
| AmexExport.Rename | amex_export_parser.py:71-85 | a column is renamed only when its name is exactly a key of the mapping, to one of the standard names; no column is called Debit or Credit afterwards |
| AmexExport.RenameIdempotent | amex_export_parser.py:85 | renaming twice is renaming once |
| AmexExport.DebitCreditBranchDead | amex_export_parser.py:101-103 | after renaming, `'Debit' in df.columns and 'Credit' in df.columns` never holds |
| AmexExport.FirstMissing | amex_export_parser.py:88-91 | none is missing exactly when Date, Description and Amount are all present; otherwise the first absent one in that order |
| AmexExport.CheckRequired | amex_export_parser.py:88-91 | the required-column loop computes `FirstMissing` |
| AmexExport.ExportRow | amex_export_parser.py:93-109 | a row is kept exactly when its date and amount parse, and then carries them, its description, and its Category or Uncategorized |
| AmexExport.ParseCsvExport | amex_export_parser.py:56-114 | an unreadable file fails; the result never claims an unsupported format, has no Source, and has no more rows than the file |
| AmexExport.CsvExportMeaning | amex_export_parser.py:85-111 | a missing required column is reported by name; a duplicated Date or Amount after renaming is an error; otherwise the result is exactly the rows whose date and amount parse, in file order |
| AmexExport.DebitCreditExportRejected | amex_export_parser.py:79-80 | an export with both Debit and Credit columns fails, since both are renamed to Amount |
| AmexExport.ParseExportFile | amex_export_parser.py:180-197 | `.csv` goes to the CSV parser and `.ofx`/`.qfx` to the OFX parser, by lower-cased extension |
| AmexExport.UnsupportedFormatIff | amex_export_parser.py:190-197 | the unsupported-format error arises exactly for files whose extension is none of the three |
| AmexExport.FirstParsed | amex_export_parser.py:226-240 | nothing is found exactly when every candidate fails to parse; otherwise the rows of the first candidate that parses |
| AmexExport.TryCandidates | amex_export_parser.py:226-240 | the try-each-file loop with `break` computes `FirstParsed` |
| AmexExport.Transactions | amex_export_parser.py:199-252 | success means a non-empty table sorted by date; with an explicit file, success exactly when it parses to a non-empty table, whose rows are then permuted only; an explicit file that fails gives ProcessingFailed with its error, and one that parses to no rows gives "no transactions found"; with no file and no candidates, the "no recent exports" error; with no file and some candidates, success exactly when the first candidate that parses yields rows, whose rows are then permuted only; no candidate parsing gives "could not parse any", and a first parsed candidate with no rows gives "no transactions found" |
| AmexExport.GetTransactions | amex_export_parser.py:199-252 | the method as written computes `Transactions` |
| Categorize.SearchLiteral | data_processor.py:89 | a pattern without `.` is found by `re.search` exactly where it occurs as a substring |
| Categorize.CategoryMarks | data_processor.py:88-89 | category k is marked exactly when one of its patterns matches the lower-cased description |
| Categorize.Classify | data_processor.py:88-91 | the category chosen is the first, in declaration order, whose patterns match; none is chosen exactly when no category matches |
| Categorize.FirstMatchingCategory | data_processor.py:88-91 | the inner loop with `break` computes `Classify` |
| Categorize.Recategorize | data_processor.py:84-91 | only the category changes: to the chosen category, or not at all when none matches |
| Categorize.CategorizeTransactions | data_processor.py:5-96 | the input is unchanged; a fresh table is categorised row by row, with Uncategorized first when there was no Category column; the returned list is the distinct categories in order of first appearance |
| Categorize.CategorizedIdempotent | data_processor.py:84-91 | categorising a categorised table again changes nothing |
| Categorize.CategoryListMeaning | data_processor.py:94 | the category list has no duplicates, holds exactly the categories present, in order of first appearance |
| Categorize.LiteralMatches | data_processor.py:89 | a literal pattern of a category occurring in the lower-cased description marks that category |
| Categorize.WalmartAndTargetNeverShopping | data_processor.py:23-91 | a description mentioning walmart or target is never Shopping, and is Groceries unless a Dining pattern matches |
| Categorize.WalmartDeliIsDining | data_processor.py:23-91 | "Walmart Deli" is categorised Dining |
| Categorize.GasBillNeverUtilities | data_processor.py:23-91 | a description with "gas bill" is never Utilities & Bills, because Gas & Automotive comes first; it is Gas & Automotive unless Dining or Groceries matches |
| Pivot.Where | data_processor.py:116-123 | the selected rows all come from the data and carry the key, and every row with the key is selected |
| Pivot.SortedCategories | data_processor.py:116-123 | the index is sorted and is a permutation of the distinct categories |
| Pivot.PivotCell | data_processor.py:116-123 | the cell of a category and a month is the sum of Amount over the rows of that category and month |
| Pivot.PivotCellEmpty | data_processor.py:116-123 | a combination no row has is filled with 0 |
| Pivot.PivotRowTotal | data_processor.py:126 | the Total column of a category is the sum of Amount over that category's rows |
| Pivot.PivotColumnTotal | data_processor.py:129 | the Total row of a month is the sum of Amount over that month's rows |
| Pivot.PivotGrandTotal | data_processor.py:126-129 | the grand total is the sum of every Amount |
| Pivot.Partition | data_processor.py:126-129 | adding up per-key sums over distinct keys that cover every row gives the total, each row counted once |
| Pivot.PivotColumns | data_processor.py:132 | the columns are the month keys and Total, each once, in ascending order, with Total last |
| Pivot.PivotColumnsChronological | data_processor.py:113-132 | with calendar dates, an earlier month column belongs to an earlier month |
| Pivot.PivotIndex | data_processor.py:116-129 | the index holds every category once plus Total; the categories are sorted and Total follows them, unless a category is itself named Total and is that row |
| Records.MonthKeyOrder | data_processor.py:113 | `%Y-%m` keys compare as strings as their (year, month) pairs compare |
| Records.MonthKeyBeforeTotal | data_processor.py:126-132 | every month key sorts strictly before "Total" |
| Records.ByDateIsTotalPreorder | bank_parsers.py:725 | ordering by date is a total preorder, so sorting by it is well defined |
| Months.GetMonthsBetweenDates | utils.py:106-140 | the loop, with its membership test and December rollover, computes `MonthsBetween` |
| Months.MonthsBetweenStart | utils.py:117-123 | start after end gives the empty list; otherwise the list opens with start's month |
| Months.MonthsBetweenIncreasing | utils.py:120-135 | the keys strictly increase, so none repeats |
| Months.MonthsBetweenConsecutive | utils.py:126-135 | the key after month (y, m) is the key of the next calendar month, December followed by January |
| Months.MonthsBetweenThroughEnd | utils.py:120-138 | when end's month is visited, the list runs from start's month to end's, with length 12·(end year − start year) + (end month − start month) + 1; the walk fails, with `replace(year=10000)` raising, exactly when end is in December 9999 |
| Months.MidnightStartReachesEnd | utils.py:120-135 | a start at midnight always reaches end's month |
| Months.KeyOrder | utils.py:121 | keys of month numbers compare as the numbers do |
| Months.EndMonthDropped | utils.py:120-135 | as written, an end on the first of a later month, earlier in its day than start, leaves end's month out |
| Months.EndMonthDroppedExample | utils.py:120-135 | 15 January 2024 10:00 to 1 March 2024 09:00 gives ["2024-01", "2024-02"] |
| Months.MonthsThroughMeaning | utils.py:106-116 | the intended list runs from start's month to end's, one key per month, whatever the times of day |
| Months.MonthsBetweenAgrees | utils.py:120-138 | wherever end's month is visited, the loop's list is the intended list |

## Left out

- File I/O is not modelled: `open`, `pd.read_csv` and `f.read()`. A file arrives as its
  path, its text (None when it cannot be read) and its parsed CSV table (None when
  `read_csv` raises).
- CSV tokenising and pandas type inference are not modelled. Header names are taken as
  distinct and non-empty, which is how `read_csv` mangles duplicates.
- The directory scans are not modelled: `glob.glob`, `os.path.getmtime`,
  `datetime.now()`, `os.path.expanduser`. `Downloads` receives the found files and the
  clock as parameters.
- Streamlit messages (`st.info`, `st.warning`, `st.success`, `st.text`) and the text of
  error messages are left out. Errors are datatype values naming their cause and, for
  `parse_file`, the file.
- Floating-point amounts are modelled as whole cents; `float()` and `pd.to_numeric` are
  oracles. `float()` also accepts "nan", "inf" and exponent forms such as "1e3" without
  raising; a NaN or infinite amount has no value in whole cents, so the oracle is taken
  to give some integer or None for such text, and NaN and infinite amounts are not
  modelled. `fillna(0)` subtraction in the Debit/Credit branch is not modelled because the
  branch is unreachable (`AmexExport.DebitCreditBranchDead`).
- Lower-casing and `re.IGNORECASE` cover ASCII letters only, without Unicode case folding.
- Category patterns keep `.` as the only metacharacter. `\'` is written as `'`. `disney+`
  is written `disney`, which occurs exactly where `disney+` matches.
- `BankParsers.BankColumns`: when a header names a column twice, pandas would return a
  table for it; the model takes the column at the chosen position.
- `AmexExport.ExportRow`: a Description or Category column named twice after renaming
  is not modelled.
- `BankParsers.MultiStatementParser.ParseMultipleFiles` and `AmexExport.Transactions`:
  `sort_values` is not stable by default. The contract states sorted and a permutation,
  and leaves the order of equal dates open.
- `BankParsers.MultiStatementParser.FindRecentStatements`: `list(set(...))` fixes no
  order. The contract states the elements and no duplicates only.
- `AmexExport.GetTransactions`: the `months` parameter is unused by the source and is
  left out.
- `Pivot.CreatePivotTable`: the source overwrites the caller's Date and Month columns.
  That mutation is not modelled, and neither are rows whose category is NaN (pandas
  drops them).
- `Categorize.CategorizeTransactions`: a missing Description cell (NaN), or a Description
  column pandas reads as numbers, makes `row['Description'].lower()` raise
  AttributeError in the source (data_processor.py:85), and `categorize_transactions`
  aborts. The model reads a missing cell as the empty string and every description as
  text, so such a row is categorised like the description "" and the call never fails.
  The Amex CSV export keeps such rows, because its `dropna` looks only at Date and Amount.
- Records.MonthKey: for years below 1000, `strftime('%Y')` is platform-dependent (glibc
  does not pad). The model always pads to four digits.
- Months.GetMonthsBetweenDates: the `ValueError` from `replace(year=10000)` after
  December 9999 propagates in the source. The model returns None.

## Findings

| source | as written | input that shows it | evidently intended | confidence | as-written member | corrected member |
|---|---|---|---|---|---|---|
| utils.py:120-135 | `replace(year=..., month=..., day=1)` keeps start's time of day, so an end on the 1st of a later month with an earlier time than start's is never reached and its month is left out | start 2024-01-15 10:00, end 2024-03-01 09:00 gives ["2024-01", "2024-02"] | every month from start's through end's: ["2024-01", "2024-02", "2024-03"] | not executed | Months.EndMonthDropped, Months.EndMonthDroppedExample | Months.MonthsThrough, Months.MonthsThroughMeaning |
