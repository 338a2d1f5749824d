# Statement ingestion and transaction identity, in Dafny

This project models the two library modules of a personal-finance web application that
imports bank statements and files each transaction under a category.

- **Statement ingestion** (`src/lib/fileParser.ts`). The input is what the CSV tokeniser or the
  Excel workbook reader produced. The model covers:
  - the `bankFormats` layout catalogue;
  - column-layout detection: catalogue scoring, then a keyword fallback;
  - amount normalisation (accounting parentheses) and the `M/D/YYYY` date fallback;
  - conversion of rows to candidate transactions, with one labelled error per rejected row;
  - the Excel grid-to-rows step;
  - how `processFile`, `processCSVFile` and `processXLSXFile` compose their result or error.
- **Transaction identity and storage** (`src/lib/firestore.ts`). The model covers:
  - the index-error predicate;
  - the content-derived transaction identifier, a 31-multiplier rolling hash over UTF-16 code
    units truncated by ToInt32 (section 7.1.6 of ECMA-262), rendered in base 36;
  - `createTransaction`'s validation and storage path;
  - the year-by-month partition scan, sort and slice of `getRecentTransactions`;
  - the duplicate filter of `getUncategorizedTransactions`;
  - the bucketing of `getTransactionsGroupedByCategory`.

The records come from `src/types/index.ts`: `Transaction`, `CSVMapping` and `ParsedCSVRow`.

Modules:

- `Wrappers`: `Option` stands for `undefined`/`null`. `Result` stands for a thrown error and
  carries its message.
- `JsText`: the JavaScript string built-ins the code relies on, as the code uses them.
  - `toLowerCase`, `trim`, `includes`, `split`/`join` on one character.
  - `replace` with a character class.
  - `padStart`.
  - `toString(radix)` of an integer.
  - `charCodeAt` as UTF-16 code units.
- `Types`: the records, and JavaScript's `Date` and `Number`. `Engine` bundles what the
  JavaScript engine defines and the model takes as given: `new Date(text)`,
  `new Date(y, m, d)`, `parseFloat`, and the rendering of a number as text.
- `FileParser` and `Firestore`: one module per source file.

The imperative parts of the source are methods with loops, each proved against a
specification function. They are:

- the scoring `forEach`;
- the row loop of `convertRowsToTransactions`;
- the row-object loop of `parseXLSXFile`;
- the hash loop;
- the nested year and month loops with `continue`/`break`;
- the id-set loop;
- the grouping loop.

Choices the code makes that are easy to misread:

- **Tie-break.** On a tie in detection the LAST top-scoring catalogue entry wins. The `reduce`
  at `src/lib/fileParser.ts:120` keeps the earlier entry only when it is strictly greater.
  `BestIndex` and `DetectionAccepts` state this rule.
- **Threshold.** A score of 6 accepts a layout in which only two of the three required columns
  are present. The comment at `src/lib/fileParser.ts:122` says all three must match; the code
  accepts two. `Score` states the equivalence between 6 points and two columns. A role that was
  not found keeps the catalogue's own column name (`ResolveColumn`).
- **Whitespace-only cells.** A whitespace-only amount cell passes the missing-data check and
  parses to 0. A whitespace-only description is kept as `''` (`BlankDescriptionKept`).
- **Where the scan stops.** The recent-transactions scan checks its count after each readable
  partition's push (`src/lib/firestore.ts:370`) and again at the end of each year
  (`src/lib/firestore.ts:380`). It stops at the first of these check points whose count is at
  least `limit`. The year-end check matters on its own: with `limit` 0, a year whose partitions
  all fail ends the scan with nothing collected. `Checkpoints` lists the check points in visiting
  order and `CollectedStops` states the stop.

## Model

| member | source | states |
|---|---|---|
| `JsText.Lower` | src/lib/fileParser.ts:101 | lower-casing keeps the length and maps each character on its own (ASCII letters down, everything else kept) |
| `JsText.Trim` | src/lib/fileParser.ts:260 | `trim()` never lengthens, and what it returns is empty or starts and ends with a non-whitespace character |
| `JsText.TrimIsSlice` | src/lib/fileParser.ts:260 | `trim()` returns one contiguous piece of the text, and what it drops before and after that piece is whitespace |
| `JsText.TrimEmptyIffBlank` | src/lib/fileParser.ts:319 | `trim()` yields `''` exactly when every character is JavaScript whitespace |
| `JsText.IncludesIffOccurs` | src/lib/firestore.ts:35-38 | `includes` holds exactly when the pattern occurs at some position |
| `JsText.Without` | src/lib/fileParser.ts:194 | removing a character class keeps exactly the characters outside the class and never lengthens |
| `JsText.WithoutAppend` | src/lib/fileParser.ts:194 | removing a character class from a concatenation removes it from each part, keeping their order |
| `JsText.EndsWithIffSuffix` | src/lib/fileParser.ts:427-429 | `endsWith` holds exactly when the text is some text followed by the suffix |
| `JsText.BeforeFirst` | src/lib/firestore.ts:60 | `split(sep)[0]` is a prefix free of the separator, followed by the separator when shorter than the text |
| `JsText.Split` | src/lib/firestore.ts:60 | `split` yields at least one part and no part contains the separator |
| `JsText.JoinCons` | src/lib/firestore.ts:154 | joining a part in front of at least one more part puts the separator between it and the join of the rest |
| `JsText.JoinSplit` | src/lib/firestore.ts:60 | joining the parts of a split with the same separator gives the text back |
| `JsText.SplitJoin` | src/lib/firestore.ts:154 | splitting a join of separator-free parts gives the parts back |
| `JsText.ToRadix` | src/lib/firestore.ts:69 | `toString(radix)` is non-empty, uses only digits below the radix, and has no leading zero |
| `JsText.FromToRadix` | src/lib/firestore.ts:69 | reading a radix rendering back gives the number: rendering loses nothing |
| `JsText.ToRadixLength` | src/lib/firestore.ts:69 | a number below radix^k renders in at most k digits |
| `JsText.IntToStringInjective` | src/lib/firestore.ts:154 | distinct integers have distinct decimal texts |
| `JsText.PadStart` | src/lib/firestore.ts:139 | `padStart` ends with the original text, is exactly the target length when shorter, and fills with the pad character |
| `JsText.CodeUnits` | src/lib/firestore.ts:64-65 | the code units are 16-bit values, one or two per character |
| `JsText.CodeUnitsAppend` | src/lib/firestore.ts:64-65 | the code units of a concatenation are the concatenation of the code units |
| `FileParser.LowerAll` | src/lib/fileParser.ts:101 | one lower-cased header per header, in order |
| `FileParser.Score` | src/lib/fileParser.ts:107-114 | 3 points per required column found case-insensitively plus 1 for a found raw-description column, at most 10; 6 or more exactly when two required columns are found |
| `FileParser.ScoreFormats` | src/lib/fileParser.ts:106-117 | the loop gives each catalogue entry, in catalogue order, its score |
| `FileParser.BestIndex` | src/lib/fileParser.ts:120 | the chosen entry has the top score and every later entry scores strictly less: the last top-scoring entry |
| `FileParser.FirstWhere` | src/lib/fileParser.ts:136-150 | the selected index is the first one satisfying the test, or the length when none does |
| `FileParser.FindHeader` | src/lib/fileParser.ts:127 | `find` returns the first header whose lower-case form equals the name's (no earlier header matches), and returns nothing exactly when no header matches |
| `FileParser.ResolveColumn` | src/lib/fileParser.ts:127-129 | the resolved column matches the catalogue name case-insensitively; it is the first matching header when one matches, else the catalogue name |
| `FileParser.CatalogueMapping` | src/lib/fileParser.ts:126-132 | each role is the file's first header matching its catalogue name case-insensitively, or the catalogue name when none matches; a raw-description column is set exactly when the entry has one and a header matches it, and then it is the first such header |
| `FileParser.KeywordTestsIgnoreCase` | src/lib/fileParser.ts:136-144 | each keyword test (the `i` flag of its regular expression) gives the same answer on a header and on its lower-case form |
| `FileParser.KeywordMapping` | src/lib/fileParser.ts:136-154 | a mapping exists exactly when every role has a keyword-matching header; each role then takes the first such header, and there is no raw-description column |
| `FileParser.BestEntryScores` | src/lib/fileParser.ts:119-120 | the entry the `reduce` keeps scores at least as much as every entry, and strictly more than every later one |
| `FileParser.DetectionAccepts` | src/lib/fileParser.ts:119-133 | when some entry finds two required columns, the entry the `reduce` keeps found two columns too, scores at least as much as every entry and strictly more than every later one, and detection returns its catalogue mapping |
| `FileParser.DetectionFallsBack` | src/lib/fileParser.ts:135-154 | when no entry finds two required columns, detection is the keyword fallback |
| `FileParser.Detect` | src/lib/fileParser.ts:100-155 | detection finds nothing exactly when no catalogue entry finds two required columns and the keyword fallback finds nothing |
| `FileParser.DetectFormat` | src/lib/fileParser.ts:100-155 | `detectCSVFormat` over `bankFormats`: a mapping it returns names actual headers for at least two roles, and its raw-description column, when set, is an actual header |
| `FileParser.DetectCSVFormat` | src/lib/fileParser.ts:100-155 | the method's score loop and selection give the detection function's mapping |
| `FileParser.DetectedColumnsPresent` | src/lib/fileParser.ts:122-152 | a detected mapping names actual headers for at least two roles, and its raw-description column, when set, is an actual header |
| `FileParser.KeywordColumnsPresent` | src/lib/fileParser.ts:146-151 | the keyword fallback names actual headers for all three roles |
| `FileParser.CatalogueColumnsPresent` | src/lib/fileParser.ts:122-129 | an accepted entry resolves to actual headers for at least two roles |
| `FileParser.CleanAmount` | src/lib/fileParser.ts:194 | the cleaned text holds exactly the input's characters other than `$`, `,` and whitespace |
| `FileParser.AmountNumberText` | src/lib/fileParser.ts:194-198 | the text given to `parseFloat` holds exactly the input's characters other than `$`, `,`, whitespace and parentheses |
| `FileParser.AbsReal` | src/lib/fileParser.ts:206 | `Math.abs` is non-negative and equals the value or its negation |
| `FileParser.ParseAmount` | src/lib/fileParser.ts:187-207 | blank gives 0; the error "Invalid amount format: …" occurs exactly when the stripped text does not parse; with both parentheses the result is minus the absolute value, otherwise the parsed value |
| `FileParser.CleanParenthesised` | src/lib/fileParser.ts:194-197 | noise removal keeps parenthesised digits intact |
| `FileParser.ParenthesisedText` | src/lib/fileParser.ts:194-198 | parenthesised digits lose only their parentheses, count as negative and are not blank |
| `FileParser.AccountingNegative` | src/lib/fileParser.ts:196-206 | `(digits)` parses to minus the absolute value of `digits` |
| `FileParser.MatchSlashDate` | src/lib/fileParser.ts:172-174 | a match is exactly three `/`-separated digit groups of lengths 1-2, 1-2 and 4 |
| `FileParser.SlashDateMatches` | src/lib/fileParser.ts:172-175 | every `M/D/YYYY`-shaped text matches, and its groups are read back as month, day and year |
| `FileParser.ParseDate` | src/lib/fileParser.ts:158-184 | a date the engine parses is returned as is; otherwise an `M/D/YYYY` match is built from its groups (month minus one) and returned when valid; the result is always a valid date, or else the error "Invalid date format: …" |
| `FileParser.ConvertRow` | src/lib/fileParser.ts:244-267 | a missing cell gives "Row n: Missing required data"; a date failure gives "Row n: " plus the date parser's message, and an amount failure after a good date gives "Row n: " plus the amount parser's message; otherwise a candidate with the parsed date and amount, the trimmed description, the optional raw description and the whole row |
| `FileParser.BlankDescriptionKept` | src/lib/fileParser.ts:249-260 | a whitespace-only description passes the check and is kept as `''` |
| `FileParser.BlankAmountIsZero` | src/lib/fileParser.ts:249-255 | a whitespace-only amount passes the check and converts to an amount of 0 |
| `FileParser.RowOutcomes` | src/lib/fileParser.ts:243-268 | one outcome per row |
| `FileParser.RowOutcomeAt` | src/lib/fileParser.ts:243-268 | the outcome of row i is that row converted alone under index i |
| `FileParser.OutcomesStep` | src/lib/fileParser.ts:243-268 | one more row adds its outcome to exactly one of the two lists, at the end |
| `FileParser.OutcomeCount` | src/lib/fileParser.ts:243-270 | candidates plus errors equal outcomes: each row gives exactly one of them |
| `FileParser.OutcomesConcatenate` | src/lib/fileParser.ts:243-270 | both lists keep row order across batches |
| `FileParser.ConvertRows` | src/lib/fileParser.ts:236-271 | #transactions + #errors = #rows |
| `FileParser.ConvertRowsToTransactions` | src/lib/fileParser.ts:240-270 | the push loop produces the row-outcome function's two lists, with #transactions + #errors = #rows |
| `FileParser.RowFromCells` | src/lib/fileParser.ts:309-315 | the row object's keys are exactly the header names |
| `FileParser.RowFromCellsValue` | src/lib/fileParser.ts:311-313 | each header reads the cell of its last column, `''` past the end of a short row |
| `FileParser.BuildRow` | src/lib/fileParser.ts:310-314 | the assignment loop builds a row keyed by the headers in which a repeated header keeps the later cell |
| `FileParser.KeepNonBlank` | src/lib/fileParser.ts:318-320 | the kept rows are exactly the rows with some non-blank value |
| `FileParser.KeepNonBlankAppend` | src/lib/fileParser.ts:318-320 | the filter keeps order and multiplicity: filtering a concatenation concatenates the filtered parts |
| `FileParser.BuiltRows` | src/lib/fileParser.ts:308-316 | one row object per data row, the i-th built from the headers and grid row i |
| `FileParser.GridToRows` | src/lib/fileParser.ts:300-326 | an empty grid is rejected; otherwise the first row is the header list, the data are exactly the non-blank built rows in grid order, and there are no errors |
| `FileParser.GridRowsKept` | src/lib/fileParser.ts:308-320 | fewer data rows than grid rows; every kept row is non-blank and keyed by the headers, and every non-blank data row is kept |
| `FileParser.ParseCsvFile` | src/lib/fileParser.ts:217-230 | a tokeniser failure becomes "CSV parsing failed: …"; otherwise its rows and errors are passed on, with `[]` for missing fields |
| `FileParser.ParseXlsxFile` | src/lib/fileParser.ts:279-334 | the reader's, decoder's and missing-sheet failures give their messages; a sheet gives the grid's rows |
| `FileParser.ComposeResult` | src/lib/fileParser.ts:350-373 | no data is an error; no mapping gives no transactions and the reader errors plus one message; otherwise the reader errors are followed by the conversion errors, and everything is accounted for |
| `FileParser.Wrap` | src/lib/fileParser.ts:374-376 | a rethrow keeps success and prefixes a failure's message |
| `FileParser.ProcessCsvFile` | src/lib/fileParser.ts:386-415 | every failure is prefixed "Failed to process CSV: "; tokeniser failure, no data and composition as above |
| `FileParser.ProcessXlsxFile` | src/lib/fileParser.ts:347-376 | every failure is prefixed "Failed to process Excel file: "; reader failures, no data and composition as above |
| `FileParser.ProcessFile` | src/lib/fileParser.ts:425-433 | `.csv` goes to the CSV path, then `.xlsx`/`.xls` go to the Excel path, and any other name is rejected |
| `Firestore.AnyPatternIn` | src/lib/firestore.ts:35-38 | `some` holds exactly when some pattern occurs in the lower-cased message or code |
| `Firestore.IsFirestoreIndexError` | src/lib/firestore.ts:22-50 | true exactly when one of the five patterns occurs in the lower-cased message or code, missing ones read as `''` |
| `Firestore.BareErrorIsNotIndexError` | src/lib/firestore.ts:23-24 | an error with no message and no code is not an index error |
| `Firestore.IndexErrorIgnoresCase` | src/lib/firestore.ts:35-38 | the predicate does not depend on letter case |
| `Firestore.ToInt32` | src/lib/firestore.ts:67 | the result is an int32 congruent to its argument modulo 2^32, and an int32 is left alone |
| `Firestore.HashStepMul31` | src/lib/firestore.ts:66-67 | one shift-subtract-add step truncated twice is ToInt32(31·h + c) |
| `Firestore.StepOfTruncated` | src/lib/firestore.ts:63-68 | truncating before a step changes nothing: the hash is the 31-recurrence modulo 2^32 |
| `Firestore.HashFrom` | src/lib/firestore.ts:63-68 | after at least one unit the running hash is an int32 |
| `Firestore.Hash` | src/lib/firestore.ts:63-68 | the hash starts at 0 and is always an int32 |
| `Firestore.HashFromSnoc` | src/lib/firestore.ts:64-68 | one more code unit is one more step |
| `Firestore.HashFromAppend` | src/lib/firestore.ts:63-68 | hashing a concatenation resumes from the first part's hash |
| `Firestore.PairCollides` | src/lib/firestore.ts:63-68 | the units of `Aa` and of `BB` lead from any hash to the same hash |
| `Firestore.DateKey` | src/lib/firestore.ts:60 | the date key is a prefix of the ISO text with no `T` |
| `Firestore.Abs` | src/lib/firestore.ts:69 | `Math.abs` is the value or its negation, never negative |
| `Firestore.IdFromHash` | src/lib/firestore.ts:69 | the identifier is 1 to 6 base-36 digits with no sign, and reads back as the hash's absolute value |
| `Firestore.TransactionId` | src/lib/firestore.ts:53-70 | it fails, with its message, exactly on an invalid date; otherwise the id has the identifier shape and reads back as the absolute value of the hash of the code units of "dateKey-description-amount" |
| `Firestore.GenerateTransactionId` | src/lib/firestore.ts:53-70 | the method, with its loop, returns the identifier function's result |
| `Firestore.HashLoop` | src/lib/firestore.ts:63-68 | the `for` loop over the code units computes the hash |
| `Firestore.IdTextAround` | src/lib/firestore.ts:61 | the hashed text is the date key, a dash and the description, then a dash and the amount text |
| `Firestore.HashAround` | src/lib/firestore.ts:63-68 | the hash of a three-part text resumes from the first part's hash through the middle part |
| `Firestore.DescriptionsCollide` | src/lib/firestore.ts:53-70 | two different descriptions, one with `Aa` where the other has `BB`, get the same identifier for the same date and amount |
| `Firestore.CollidingPairUnits` | src/lib/firestore.ts:65 | the code units of `Aa` and `BB` |
| `Firestore.MonthSegmentValue` | src/lib/firestore.ts:138-139 | the month segment of a calendar month is exactly two decimal digits that read back as the month |
| `Firestore.DocSegments` | src/lib/firestore.ts:154 | a document reference has eight segments |
| `Firestore.PlanTransactionWrite` | src/lib/firestore.ts:120-154 | an invalid date, then an empty description, then a NaN amount are rejected in that order with their messages, and these are the only rejections; otherwise the id is the derived identifier, the year and month segments come from `getFullYear` and `getMonth() + 1`, and the path is the segments joined by `/` |
| `Firestore.PathJoinsSegments` | src/lib/firestore.ts:141-154 | the path text is the document reference's segments joined by `/` |
| `Firestore.WritePathSegments` | src/lib/firestore.ts:141-154 | for a user id without `/`, splitting the path on `/` gives back the document reference's segments |
| `Firestore.SegmentsSplitBack` | src/lib/firestore.ts:154 | segments free of `/` are recovered by splitting their join |
| `Firestore.PartitionNamesDistinct` | src/lib/firestore.ts:320-324 | two calendar months have the same collection path segments only when they are the same year and month |
| `Firestore.SearchYears` | src/lib/firestore.ts:311 | the five years from the current one down |
| `Firestore.ScanMonths` | src/lib/firestore.ts:318-378 | the month loop only appends to what was collected before it |
| `Firestore.ScanYears` | src/lib/firestore.ts:315-381 | the year loop only appends to what was collected before it |
| `Firestore.ScanMonthsPrefix` | src/lib/firestore.ts:318-378 | the month loop appends a prefix of the months' readable documents, in visiting order, and stops short of all of them only at the limit; exactly where it stops is `ScanMonthsStops` |
| `Firestore.ScanYearsPrefix` | src/lib/firestore.ts:315-381 | the same for the year loop over its years, each scanned from a given first month; exactly where it stops is `ScanYearsStops` |
| `Firestore.Collected` | src/lib/firestore.ts:315-381 | what the scan collects is a prefix of every readable document of the grid, and it is shorter only when the limit was reached; `CollectedStops` states its exact length |
| `Firestore.FirstReach` | src/lib/firestore.ts:370-380 | the index of the first check point whose count reaches the limit: every earlier point is below it, and the index is the number of points when none reaches it |
| `Firestore.StopCountAppend` | src/lib/firestore.ts:370-380 | over two stretches of check points, the first stretch decides where the scan stops if one of its points reaches the limit, otherwise the second does |
| `Firestore.StopCountCons` | src/lib/firestore.ts:370 | a check point below the limit does not stop the scan |
| `Firestore.StopCountHead` | src/lib/firestore.ts:370-372 | a check point at or above the limit stops the scan with that count |
| `Firestore.ScanMonthsStops` | src/lib/firestore.ts:318-378 | the month loop ends with the count of its first post-push check point that reaches the limit, or after all its months when none does |
| `Firestore.SkippedMonthStops` | src/lib/firestore.ts:338-344 | a partition whose two queries fail adds no document and no check point |
| `Firestore.ReadMonthStops` | src/lib/firestore.ts:360-372 | a readable partition adds its documents and one check point, and the loop stops there exactly when that point reaches the limit |
| `Firestore.ScanYearsStops` | src/lib/firestore.ts:315-381 | the year loop ends at the first check point that reaches the limit, whether a month's push or a year's end, or after every year when none does |
| `Firestore.YearStops` | src/lib/firestore.ts:315-381 | one year's month loop, its year-end check, then the remaining years, compose into the year loop's stopping point |
| `Firestore.YearStep` | src/lib/firestore.ts:380 | on counts alone: a month loop that stopped at the limit stops the year loop; one that read everything is checked once more at the year's end |
| `Firestore.CollectedStops` | src/lib/firestore.ts:315-381 | the scan of the five-year grid ends exactly at the first check point, in visiting order, whose count is at least `limit`, or after the whole grid when none is; so with limit 0 a year whose partitions all fail ends the scan with nothing collected |
| `Firestore.InsertByDate` | src/lib/firestore.ts:388 | insertion adds exactly one transaction |
| `Firestore.InsertKeepsOrder` | src/lib/firestore.ts:388 | insertion keeps a newest-first sequence newest first |
| `Firestore.SortByDateDesc` | src/lib/firestore.ts:387-388 | the sort is a permutation ordered newest first |
| `Firestore.Take` | src/lib/firestore.ts:389 | `slice(0, limit)` is a prefix of length min(length, limit) |
| `Firestore.NewestFirst` | src/lib/firestore.ts:387-389 | sort then slice: exactly min(length, `limit`) transactions, newest first, all drawn from the input |
| `Firestore.NewestFirstUnderLimit` | src/lib/firestore.ts:387-389 | within the limit the slice drops nothing: the result is a rearrangement of the input |
| `Firestore.NewestFirstKeepsNewest` | src/lib/firestore.ts:387-389 | a transaction the slice drops is no newer than any it keeps |
| `Firestore.RecentTransactions` | src/lib/firestore.ts:387-389 | exactly min(collected, `limit`) transactions, newest first, all drawn from what was collected |
| `Firestore.RecentIsEverythingUnderLimit` | src/lib/firestore.ts:315-389 | when the grid holds at most `limit` readable documents, all of them are returned |
| `Firestore.RecentAreNewest` | src/lib/firestore.ts:387-389 | a collected transaction that is not returned is no newer than any returned one |
| `Firestore.ReadPartition` | src/lib/firestore.ts:326-346 | the ordered query, else the plain query, else the partition is skipped |
| `Firestore.ScanYear` | src/lib/firestore.ts:318-379 | the month loop with `continue` and `break` computes the month scan of one year |
| `Firestore.GetRecentTransactions` | src/lib/firestore.ts:304-403 | the nested loops, sort and slice return the specified result, at most `limit` long and newest first |
| `Firestore.CandidateId` | src/lib/firestore.ts:430 | a candidate's identifier cannot be derived exactly when its date is invalid; otherwise it has the identifier shape |
| `Firestore.KeepNew` | src/lib/firestore.ts:428-442 | the filter never lengthens |
| `Firestore.KeepNewMembers` | src/lib/firestore.ts:428-442 | a candidate is kept exactly when its identifier cannot be derived or is not stored |
| `Firestore.InvalidDateKept` | src/lib/firestore.ts:438-441 | a candidate whose identifier cannot be derived is never filtered out |
| `Firestore.KeepNewAppend` | src/lib/firestore.ts:428-442 | the filter keeps input order |
| `Firestore.IdsOf` | src/lib/firestore.ts:420-423 | the id set holds exactly the stored transactions' ids |
| `Firestore.CollectIds` | src/lib/firestore.ts:420-423 | the `forEach` builds that set |
| `Firestore.GetUncategorizedTransactions` | src/lib/firestore.ts:406-457 | the result is the order-preserving filter against the ids of up to 10000 recent transactions; newCount is its length, and existingCount is the input length minus it and never negative |
| `Firestore.SavedCandidateIsDuplicate` | src/lib/firestore.ts:428-441 | once the id under which `createTransaction` wrote a candidate is among the stored ids, the filter drops that candidate |
| `Firestore.CategoryKey` | src/lib/firestore.ts:469 | the key is the category id when present and non-empty, else `uncategorized` |
| `Firestore.InCategory` | src/lib/firestore.ts:466-482 | a group is never longer than the input |
| `Firestore.InCategoryMembers` | src/lib/firestore.ts:468-481 | a group holds exactly the transactions with its key, and a key nobody has gets an empty group |
| `Firestore.KeyOrder` | src/lib/firestore.ts:477-480 | there are no more keys than transactions |
| `Firestore.KeyOrderDistinct` | src/lib/firestore.ts:477-480 | no group is created twice |
| `Firestore.KeyOrderMembers` | src/lib/firestore.ts:477-480 | every transaction's key has a group, and every group has a transaction |
| `Firestore.GroupsPartition` | src/lib/firestore.ts:466-482 | the group sizes add up to the input length: each transaction lands in exactly one group |
| `Firestore.InCategoryAppend` | src/lib/firestore.ts:468-481 | groups keep input order |
| `Firestore.GetTransactionsGroupedByCategory` | src/lib/firestore.ts:460-493 | grouping the 1000 most recent: the groups are exactly the keys in first-appearance order, each holding its transactions in order |
| `Firestore.GroupByCategory` | src/lib/firestore.ts:466-482 | the bucketing loop creates a group on a key's first appearance and appends in order, giving exactly the specified groups |

## Left out

- **Foreign readers.** The CSV tokeniser (`Papa.parse`), the file reader and the workbook decoder
  (`XLSX.read`, `sheet_to_json`) are not modelled. Their outcome is an input: `CsvRead`, or
  `WorkbookRead` with the first sheet's string grid.
- **The document store's I/O.** `setDoc`, `getDoc`, `getDocs` and `getDocsFromServer` are not
  modelled, and neither are server timestamps or the read-back check after a write
  (`src/lib/firestore.ts:163-198`).
  - A write is modelled up to its plan: the identifier, the segments and the path.
  - A read is a value passed in: `Store` maps a partition to what its two queries return or
    throw.
  - `forceRefresh`, and the difference between cache and server reads, are not modelled.
- **The store's key.** `Store` is keyed by the numeric (year, month) pair rather than by the
  path's text segments. `PartitionNamesDistinct` shows that for calendar months the two keyings
  pick out the same partitions.
- **Elsewhere in `src/lib/firestore.ts`.** Not modelled:
  - category creation, update, deletion and listing;
  - the default categories;
  - `getTransactionsByCategory`, the same scan with a filter;
  - the debug and mock-data utilities.
- **The user interface.** Pages, components and hooks are not modelled.
- **Date semantics.** These are engine oracles in `Engine`:
  - `new Date(text)`;
  - `new Date(y, m, d)`, including its month and day rollover;
  - the UTC `toISOString` and the local-time `getFullYear`/`getMonth`.
- **The unused `formats` list.** The date-format list at `src/lib/fileParser.ts:160-165` is never
  used by the code.
- **Numbers.** Amounts are reals.
  - `parseFloat` is an oracle.
  - So is the rendering of a number inside the hashed text.
  - Infinities and `-0` are not modelled.
  - NaN is modelled only where the code tests for it.
- **Case mapping.** Lower-casing is modelled on ASCII letters only. Every catalogue name, keyword,
  pattern and file extension the code compares against is ASCII, but a non-ASCII upper-case
  letter in user text is not lowered.
- **Untyped inputs.** Not modelled:
  - a description that is not a string (one `createTransaction` check rejects it);
  - an `undefined` or `null` amount;
  - a stored document with missing or malformed fields, and the outer `catch` of the month loop
    (`src/lib/firestore.ts:374-378`) that such a document would reach.
- **Stored dates.** A stored date is taken to be valid. An invalid one is ordered as time 0.
- **Object key order.** The key order of the `grouped` object is taken as insertion order
  (`KeyOrder`). JavaScript lists integer-like keys first.
- **Logging.** Console logging is not modelled. Its only effect is that the index-error
  predicate chooses a log message.
- **The limit.** `limit` is a natural number; negative or fractional limits are not modelled.
- Firestore.SortByDateDesc: states a permutation sorted newest first, but not stability, the
  order the engine's sort gives to transactions with equal dates.
- FileParser.DetectionAccepts: is stated for any catalogue. It is not instantiated with the
  concrete `bankFormats` header sets, so "every catalogue layout is detected from its own headers"
  is not proved for each entry.
