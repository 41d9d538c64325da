# Instagram statistics import and views, modelled in Dafny

The application reads Instagram/Meta statistics exports (CSV files with one
row per post) and shows them per account and per post type. The modelled
core is:

- **Column mapping** (`columnMappingService.js`). A mapping takes the
  column names that Meta writes, in Swedish, to internal field names such
  as `likes` or `account_id`. The mapping is cached and persisted. Header
  matching goes through `normalizeText`: trim, lower-case, collapse white
  space, drop zero-width characters. `getValue`/`getFieldValue` resolve a
  field of a row in a fixed order:
  1. the field itself;
  2. the column the mapping names;
  3. the known alternative names;
  4. a header equal after normalizing.

  The module also contains the required-column validation, the reverse
  lookup of a header, and the list of known names of a field.
- **Import pipeline** (`webDataProcessor.js`). This covers:
  - counting accounts;
  - removing duplicate posts by post id and file identifier;
  - renaming columns;
  - the file identifier;
  - the per-account summing loop of `processInstagramData` and the date
    range it collects;
  - the finished account rows with their engagement totals;
  - the sorted list of page names.
- **Views**:
  - `summarizeByAccount` in `AccountView.jsx` and in `dataProcessing.js`
    (per-account sums and the rounded average reach);
  - `aggregateByPostType` in `PostTypeView.jsx` (per-type counts, shares in
    percent, a reliability flag, and per-metric sums and means);
  - the editor handlers of `ColumnMappingEditor.jsx`, which rename a
    mapping, list a group's fields and save.

How the model represents the source:

- **Rows and JavaScript objects.** A row, a mapping or any other
  JavaScript object is an insertion-ordered association list
  (`OrderedMaps`). Keys are distinct, a new key is appended and an
  existing key is overwritten in place, as JavaScript objects and `Map`s
  do.
- **Cell values.** A cell is `null`, a number (an exact real) or a string
  (`JsValues`). Truthiness, `a || b`, `parseFloat`, `Number`, `String(n)`,
  `Math.round` and the property-key conversion of `null`, strings and
  integral numbers are written out.
- **Stateful parts.** The mapping cache is the class
  `ColumnMappingService.MappingResolver`, and the editor's React state is
  the class `ColumnMappingEditor.MappingEditor`. Their methods change
  fields under `modifies` clauses.
- **Loops.** Every loop of the source is a method with a loop whose
  invariant ties its state to a recursive specification function. The
  properties are lemmas about that function.
- **Parameters.** Parsed rows, stored data, `Date.now()` and the date
  parser are parameters. The current mapping that `getValue` consults is
  passed explicitly, and fields are read through a `Reader` (`FieldReader`
  is `getValue` under a mapping, `Direct` is `row[field]`).

One behaviour of the source is kept as written. On a merge with stored
posts, `handleDuplicates` returns the stored posts at the head of
`filteredData`. The skip check in the summing loop only skips a post whose
post id and file identifier both match an earlier post. A stored post from
an earlier file passes that check, so it is processed again: it appears
twice in `perPost` and is added to the seeded account sums a second time.
`Aggregation.MergeReprocesses` states this.

A second behaviour is also kept as written. `countUniqueAccounts` runs on
the rows as parsed, before any renaming. `getValue(row, 'account_id')`
answers from a fixed list of columns (`account_id`, `Account ID`,
`Konto-ID`, `Page ID`) and never consults the mapping. Meta's default
header `Konto-id` differs from `Konto-ID` in case, so it is not in that
list. A file with the default headers therefore reports `accountCount` 0.
`ColumnMappingService.KontoIdYieldsNull` and
`WebDataProcessor.AccountKeysWithoutIdColumns` state this.

## Model

| member | source | states |
|---|---|---|
| ColumnMappingService.NormalizeText | src/renderer/components/ColumnMappingEditor/columnMappingService.js:87-94 | a missing text gives `""`, and no result contains a zero-width or BOM character |
| ColumnMappingService.NormalizeNoInvisible | src/renderer/components/ColumnMappingEditor/columnMappingService.js:93 | normalized text never contains U+200B-U+200D or U+FEFF |
| ColumnMappingService.NormalizeCanonical | src/renderer/components/ColumnMappingEditor/columnMappingService.js:87-94 | for text without zero-width characters the result has no white space at either end, no run of two white spaces and no upper-case letter, and normalizing it again changes nothing |
| ColumnMappingService.NormalizeKeepsDoubleSpace | src/renderer/components/ColumnMappingEditor/columnMappingService.js:92-93 | a zero-width space between two spaces is removed only after the white space was collapsed, leaving two spaces |
| ColumnMappingService.NormalizeNotIdempotent | src/renderer/components/ColumnMappingEditor/columnMappingService.js:87-94 | so normalizing is not idempotent on such text: a second pass gives a different string |
| ColumnMappingService.NormalizePrefix | src/renderer/components/ColumnMappingEditor/columnMappingService.js:87-94 | two leading visible, non-space characters survive normalization, lower-cased |
| ColumnMappingService.SafeParseCases | src/renderer/components/ColumnMappingEditor/columnMappingService.js:314-325 | `null` stays `null`, numbers stay, numeric non-blank strings become their number, and every other string is returned unchanged |
| ColumnMappingService.SafeParseBlank | src/renderer/components/ColumnMappingEditor/columnMappingService.js:319 | a blank string is never turned into a number |
| ColumnMappingService.SafeParseIdempotent | src/renderer/components/ColumnMappingEditor/columnMappingService.js:314-325 | parsing a parsed value changes nothing |
| ColumnMappingService.InverseKeys | src/renderer/components/ColumnMappingEditor/columnMappingService.js:133-136 | the inverse mapping has a key exactly for each internal name the mapping targets |
| ColumnMappingService.InverseLastWins | src/renderer/components/ColumnMappingEditor/columnMappingService.js:133-136 | when several columns map to one internal name, the inverse keeps the last of them |
| ColumnMappingService.InverseDistinct | src/renderer/components/ColumnMappingEditor/columnMappingService.js:133-136 | the inverse has no key twice |
| ColumnMappingService.FirstPresentAt | src/renderer/components/ColumnMappingEditor/columnMappingService.js:292-296 | the first name present in the row decides the lookup |
| ColumnMappingService.FirstPresentNone | src/renderer/components/ColumnMappingEditor/columnMappingService.js:291-297 | the lookup finds nothing exactly when no name is present |
| ColumnMappingService.NormalizedMatchAt | src/renderer/components/ColumnMappingEditor/columnMappingService.js:300-305 | the first header whose normalized form equals the field's decides the fallback |
| ColumnMappingService.NormalizedMatchNone | src/renderer/components/ColumnMappingEditor/columnMappingService.js:300-305 | the fallback finds nothing exactly when no header normalizes to the field |
| ColumnMappingService.FieldValueChain | src/renderer/components/ColumnMappingEditor/columnMappingService.js:274-309 | `getFieldValue` tries the field, then its mapped column, then the alternatives, then the normalized scan, and parses what it finds |
| ColumnMappingService.FieldValueResolvesAt | src/renderer/components/ColumnMappingEditor/columnMappingService.js:277-297 | the candidate at position i decides when it is present and no earlier candidate is, even when its value is `null` |
| ColumnMappingService.FieldValueNothing | src/renderer/components/ColumnMappingEditor/columnMappingService.js:299-308 | with no candidate present and no normalized match the result is `null` |
| ColumnMappingService.GetValueOf | src/renderer/components/ColumnMappingEditor/columnMappingService.js:204-206 | a missing object or an empty field name gives `null` |
| ColumnMappingService.GetValueDirectIsRaw | src/renderer/components/ColumnMappingEditor/columnMappingService.js:209-211 | a key present in the row is returned raw (`" 5"` stays a string), while `getFieldValue` parses the same cell to 5 |
| ColumnMappingService.IdentityFieldsIgnoreMapping | src/renderer/components/ColumnMappingEditor/columnMappingService.js:214-232 | `account_name` and `account_id` never depend on the mapping, and neither key list lists a name the mapping could redirect |
| ColumnMappingService.KontoIdYieldsNull | src/renderer/components/ColumnMappingEditor/columnMappingService.js:224-232 | a row carrying only the default header `Konto-id` gives `null` for `account_id` through `getValue`, while `getFieldValue` finds it |
| ColumnMappingService.EngagementTotals | src/renderer/components/ColumnMappingEditor/columnMappingService.js:235-264 | without stored totals, `engagement_total` is likes+comments+shares (null as 0), and the extended total adds saves and follows to it |
| ColumnMappingService.MissingFromMembers | src/renderer/components/ColumnMappingEditor/columnMappingService.js:186-192 | a column is reported exactly when no header normalizes to its name, and there are at most as many reports as required columns |
| ColumnMappingService.MissingFromOrder | src/renderer/components/ColumnMappingEditor/columnMappingService.js:186-192 | missing columns are reported in table order |
| ColumnMappingService.ValidateSpec | src/renderer/components/ColumnMappingEditor/columnMappingService.js:174-198 | valid exactly when headers are an array and nothing is missing; a non-array reports nothing; each required column is reported iff uncovered, in order |
| ColumnMappingService.MissingFromAllPresent | src/renderer/components/ColumnMappingEditor/columnMappingService.js:181-192 | when every required name is among the headers nothing is missing |
| ColumnMappingService.DefaultHeadersValid | src/renderer/components/ColumnMappingEditor/columnMappingService.js:174-198 | the default Meta headers pass the validation |
| ColumnMappingService.MissingFromOne | src/renderer/components/ColumnMappingEditor/columnMappingService.js:186-192 | when only one required column is uncovered, it alone is reported |
| ColumnMappingService.PermalinkMissing | src/renderer/components/ColumnMappingEditor/columnMappingService.js:174-198 | the default headers without `Permalänk` report exactly that column |
| ColumnMappingService.MatchInMappingSpec | src/renderer/components/ColumnMappingEditor/columnMappingService.js:366-370 | the first mapping entry whose normalized name matches gives the internal name, and nothing is found iff none matches |
| ColumnMappingService.MatchInAlternativesSpec | src/renderer/components/ColumnMappingEditor/columnMappingService.js:373-377 | the first field with a matching alternative name is returned, and nothing is found iff none matches |
| ColumnMappingService.FindMatchingColumnKeySpec | src/renderer/components/ColumnMappingEditor/columnMappingService.js:360-380 | the mapping is searched before the alternatives; an empty name or a missing mapping finds nothing |
| ColumnMappingService.DedupSpec | src/renderer/components/ColumnMappingEditor/columnMappingService.js:386-400 | deduplication keeps every name once, drops nothing else, and keeps the first name first |
| ColumnMappingService.GetAllKnownNamesForField | src/renderer/components/ColumnMappingEditor/columnMappingService.js:385-401 | the known names are the mapped column followed by the alternatives, each once |
| ColumnMappingService.KnownNamesSpec | src/renderer/components/ColumnMappingEditor/columnMappingService.js:385-401 | the list has no repeats, holds exactly the mapped names and the alternatives, and starts with a mapped name when there is one |
| ColumnMappingService.AddEach | src/renderer/components/ColumnMappingEditor/columnMappingService.js:395-397 | adding names one at a time to a set in insertion order gives the deduplicated concatenation |
| ColumnMappingService.MappingResolver.constructor | src/renderer/components/ColumnMappingEditor/columnMappingService.js:80-81 | both caches start empty, so the current mapping is what storage holds |
| ColumnMappingService.MappingResolver.GetCurrentMappings | src/renderer/components/ColumnMappingEditor/columnMappingService.js:99-119 | returns the cached mapping, else the stored one, else the defaults, and caches it; the inverse cache and the store are untouched |
| ColumnMappingService.MappingResolver.GetInverseMappings | src/renderer/components/ColumnMappingEditor/columnMappingService.js:125-139 | returns the inverse of the current mapping and caches both |
| ColumnMappingService.MappingResolver.SaveColumnMappings | src/renderer/components/ColumnMappingEditor/columnMappingService.js:152-169 | the store takes the mapping if it accepts it, the cache holds the new mapping, the inverse cache is dropped, and the call reports success |
| ColumnMappingService.MappingResolver.ClearMappingsCache | src/renderer/components/ColumnMappingEditor/columnMappingService.js:406-409 | both caches are dropped and the next read goes to storage |
| ColumnMappingService.ReadTwice | src/renderer/components/ColumnMappingEditor/columnMappingService.js:99-119 | two reads in a row agree; an uncached resolver reads the stored mapping, or the defaults when nothing is stored |
| WebDataProcessor.CountUniqueAccounts | src/utils/webDataProcessor.js:53-67 | the count is the number of distinct keys of truthy account ids |
| WebDataProcessor.AccountKeysMembers | src/utils/webDataProcessor.js:59-64 | a key is counted exactly when some row has a truthy account id with that key |
| WebDataProcessor.AccountKeysWithoutIdColumns | src/utils/webDataProcessor.js:59-61 | rows carrying none of `getValue`'s fixed id columns count no accounts, whatever the mapping |
| WebDataProcessor.AccountKeysBound | src/utils/webDataProcessor.js:53-67 | there are never more accounts than rows, and none without rows |
| WebDataProcessor.HandleDuplicates | src/utils/webDataProcessor.js:73-137 | the result is the deduplication of the stored rows followed by the new rows |
| WebDataProcessor.LoadExisting | src/utils/webDataProcessor.js:81-97 | the loop over stored rows builds the keyed map of stored rows |
| WebDataProcessor.ScreenNew | src/utils/webDataProcessor.js:100-124 | the loop over new rows gives the screening state: kept rows, duplicate ids and duplicate count |
| WebDataProcessor.ScreeningKeys | src/utils/webDataProcessor.js:100-124 | after screening, a key is present iff it was stored or some new row has it |
| WebDataProcessor.ScreeningDistinct | src/utils/webDataProcessor.js:100-124 | screening keeps the keys distinct |
| WebDataProcessor.ScreeningKeeps | src/utils/webDataProcessor.js:100-124 | a stored entry is never replaced by later rows |
| WebDataProcessor.ScreeningCounts | src/utils/webDataProcessor.js:100-124 | every new row is either stored or counted as a duplicate |
| WebDataProcessor.SeedKeys | src/utils/webDataProcessor.js:81-97 | the seeded map has exactly the keys of the stored rows |
| WebDataProcessor.SeedSize | src/utils/webDataProcessor.js:81-97 | it has one entry per distinct stored key |
| WebDataProcessor.SeedLastWins | src/utils/webDataProcessor.js:81-97 | of stored rows sharing a key, the last is kept |
| WebDataProcessor.DropRule | src/utils/webDataProcessor.js:100-124 | a new row is dropped iff a stored row or an earlier new row has its key |
| WebDataProcessor.FirstOccurrenceKept | src/utils/webDataProcessor.js:108-114 | a new row that is not dropped is the row stored under its key at the end |
| WebDataProcessor.DeduplicatedCounts | src/utils/webDataProcessor.js:73-137 | `totalRows` counts both inputs, and the kept rows are the distinct stored keys plus the new rows minus the duplicates |
| WebDataProcessor.DeduplicatedOrder | src/utils/webDataProcessor.js:127 | the output is the stored rows, one per key, then the surviving new rows in input order |
| WebDataProcessor.DuplicateIdsSpec | src/utils/webDataProcessor.js:108-111 | `duplicateIds` lists composite keys of dropped rows only, each once, and never more than `duplicates` |
| WebDataProcessor.OnlyBatchDuplicates | src/utils/webDataProcessor.js:104-114 | with no stored row from this file, a row with a post id is dropped only for an earlier row of the batch with the same id |
| WebDataProcessor.WholeRowDuplicates | src/utils/webDataProcessor.js:115-122 | a row without a post id is dropped only for an identical row |
| WebDataProcessor.SharedIdDuplicates | src/utils/webDataProcessor.js:100-124 | with nothing stored, k new rows sharing one post id, among rows whose other keys are all different, give k-1 duplicates and keep the other rows plus one of the k |
| WebDataProcessor.MatchingInternalName | src/utils/webDataProcessor.js:151-156 | the inner search returns the internal name of the first mapping entry whose normalized name matches the column |
| WebDataProcessor.MapColumnNames | src/utils/webDataProcessor.js:143-167 | the loop renames every column of the row through the mapping |
| WebDataProcessor.RenameKeySpec | src/utils/webDataProcessor.js:147-161 | a column takes the internal name of the first matching entry and keeps its own name when none matches |
| WebDataProcessor.MappedRowKeys | src/utils/webDataProcessor.js:143-167 | the renamed row has exactly the renamed keys, each once, and no more entries than the row |
| WebDataProcessor.MappedRowValues | src/utils/webDataProcessor.js:163 | when several columns rename to one key, the last column's value wins |
| WebDataProcessor.FileIdentifierShape | src/utils/webDataProcessor.js:235 | the identifier is longer than the file name plus its separator, keeps ASCII letters and digits in place, replaces every other character by `_`, and uses only ASCII letters, digits and `_` |
| WebDataProcessor.FileIdentifierInjective | src/utils/webDataProcessor.js:235 | for the same file name, different times give different identifiers |
| WebDataProcessor.GetUniquePageNames | src/utils/webDataProcessor.js:452-466 | the result is empty for missing data, otherwise the sorted deduplicated truthy account names |
| WebDataProcessor.UniquePageNamesSpec | src/utils/webDataProcessor.js:452-466 | the names are sorted, each appears once, they are exactly the truthy names present, and with only string names the order is strict |
| WebDataProcessor.SortedUnique | src/utils/webDataProcessor.js:465 | sorting the deduplicated names keeps them distinct, sorted and the same set |
| WebDataProcessor.PageNamesTruthy | src/utils/webDataProcessor.js:459-462 | only truthy names are collected |
| Aggregation.AccountIdFor | src/utils/webDataProcessor.js:321-323 | the account key is never falsy, and is the row's own id when that is truthy |
| Aggregation.AddColumnValues | src/utils/webDataProcessor.js:359-364 | the loop over summable columns adds each parseable value of the post to the account |
| Aggregation.AggregateRows | src/utils/webDataProcessor.js:305-368 | the `forEach` over the deduplicated rows yields the specified accounts, posts and dates |
| Aggregation.CreditRow | src/utils/webDataProcessor.js:343-364 | one row credits its account (created when new) and yields the post with its engagement |
| Aggregation.ProcessedStep | src/utils/webDataProcessor.js:305-368 | a skipped row changes nothing; any other row appends its post and dates and credits its account |
| Aggregation.AggregatePosts | src/utils/webDataProcessor.js:329-367 | `perPost` is the stored posts plus the processed rows with engagement, `allDates` their dates, and at most one post per row |
| Aggregation.PostEngagementStored | src/utils/webDataProcessor.js:352-356 | the stored post carries its likes+comments+shares as `engagement_total` and is otherwise the row |
| Aggregation.PreparedTagged | src/utils/webDataProcessor.js:315-318 | every processed row carries the current file identifier |
| Aggregation.CreditedGroups | src/utils/webDataProcessor.js:342-364 | crediting one more post gives the accounts of the longer post list |
| Aggregation.AccountsAreGroups | src/utils/webDataProcessor.js:305-368 | without a merge, the accounts are the grouping of the processed rows by account key |
| Aggregation.SummarizableValid | src/utils/webDataProcessor.js:17-19 | the summable columns are distinct and none is an identity field |
| Aggregation.AddColumnsGet | src/utils/webDataProcessor.js:359-364 | only summable columns change, each by the post's parsed value when it parses |
| Aggregation.AddColumnsSum | src/utils/webDataProcessor.js:359-364 | a column holding s becomes s plus the post's parsed value |
| Aggregation.NewAccountShape | src/utils/webDataProcessor.js:343-350 | a new account has its id, its name or `Okänt konto`, its username or `-`, and 0 in every summable column |
| Aggregation.AccountOfSpec | src/utils/webDataProcessor.js:342-364 | an account built from its posts takes its identity from the first post and holds the sum of each column over all of them |
| Aggregation.AccountSums | src/utils/webDataProcessor.js:305-368 | an account exists iff a processed row has its key; its identity is from the first such row and each column is the sum over its rows |
| Aggregation.FinalizedIdentity | src/utils/webDataProcessor.js:384-396 | a finished account row satisfies engagement_total = likes+comments+shares and extended = that plus saves+follows, and nothing else changes |
| Aggregation.FinalizedFrame | src/utils/webDataProcessor.js:384-396 | finishing writes exactly the two totals |
| Aggregation.AccountRowsFinished | src/utils/webDataProcessor.js:384-399 | there is one finished row per account, in account order, each satisfying the engagement identity |
| Aggregation.MinMaxBounds | src/utils/webDataProcessor.js:374-375 | the minimum and maximum are dates of the list and bound every date |
| Aggregation.DateRangeSpec | src/utils/webDataProcessor.js:371-381 | there is no range iff there are no dates; otherwise both ends are dates and every date lies between them |
| Aggregation.MergeReprocesses | src/utils/webDataProcessor.js:277-312 | on a merge, a stored post from another file is processed again: it appears twice in `perPost` and is credited again |
| Aggregation.CreditedSum | src/utils/webDataProcessor.js:359-364 | crediting a post to an account that holds s leaves s plus the post's value |
| Aggregation.MappedRowUnmapped | src/utils/webDataProcessor.js:143-167 | with an empty mapping a row keeps its keys and order |
| Aggregation.ProcessInstagramData | src/utils/webDataProcessor.js:212-447 | the import result of the parsed rows, stored data, clock and date parser |
| Aggregation.ImportCounts | src/utils/webDataProcessor.js:242-411 | there is an error iff there are no rows; otherwise the row count, the account count, the duplicate statistics, the merge flag, the identifier and the date range are recorded |
| Aggregation.ImportPosts | src/utils/webDataProcessor.js:270-420 | without a merge the post view is the processed deduplicated rows with engagement, and its count and date range follow from them |
| Aggregation.ImportAccounts | src/utils/webDataProcessor.js:270-418 | without a merge every account row is the finished account of its group of posts and satisfies the engagement identity |
| DataProcessing.NormalizersAgree | src/utils/dataProcessing.js:38-45 | the utility copy of `normalizeText` equals the service's |
| DataProcessing.PageNamesOfMembers | src/utils/dataProcessing.js:79-85 | the collected names are exactly the truthy account names of the rows |
| DataProcessing.UniquePageNamesSorted | src/utils/dataProcessing.js:71-88 | empty or missing data gives no names; otherwise the truthy names present, sorted, each once |
| DataProcessing.IdentityGet | src/utils/dataProcessing.js:117-122 | the identity row has the account id, the name or `Okänt konto`, and the username or `-`, and nothing else |
| DataProcessing.WithFieldsGet | src/utils/dataProcessing.js:125-140 | each selected field holds its summary value and every other key is unchanged |
| DataProcessing.SummaryShape | src/utils/dataProcessing.js:117-143 | a summary has exactly the identity keys and the selected fields, each selected field's value, and the identity of the first post unless a field overwrites it |
| DataProcessing.SummariesGroups | src/utils/dataProcessing.js:93-145 | no data or no fields gives no summaries; otherwise one summary per distinct truthy account id, built from exactly that account's posts |
| DataProcessing.AverageReachBounds | src/utils/dataProcessing.js:126-133 | when every reach lies in [lo, hi], the rounded average lies in [round(lo), round(hi)] |
| DataProcessing.AverageReachOfIntegers | src/utils/dataProcessing.js:131-133 | for an integer total s over n posts, the average reach is (2s+n) div 2n, i.e. s/n rounded half up |
| DataProcessing.FieldTotalZero | src/utils/dataProcessing.js:136-138 | a field that is never a number sums to 0 |
| DataProcessing.DirectEngagementNotComputed | src/utils/dataProcessing.js:134-139 | reading keys directly, a stored `engagement_total` is summed but never computed (0 when absent) |
| DataProcessing.SummaryAmountOf | src/utils/dataProcessing.js:134-139 | a summed field of a summary is the total of the field over its posts |
| DataProcessing.SummaryListTotal | src/utils/dataProcessing.js:117-143 | over all groups, the summaries' field totals add up to the total over the groups' posts |
| DataProcessing.SummariesTotal | src/utils/dataProcessing.js:93-145 | the summaries' total of a summed field equals the total over the posts that have a truthy account id |
| DataProcessing.KeyedTruthy | src/utils/dataProcessing.js:99-101 | exactly the posts with a truthy account id are grouped |
| DataProcessing.SummaryEngagement | src/utils/dataProcessing.js:134-139 | when each post's engagement is its likes+comments+shares, so is its summary's |
| AccountView.AccountGroupsStep | src/renderer/components/AccountView/AccountView.jsx:31-48 | adding one post to the grouping adds it to its account's group only |
| AccountView.GroupPosts | src/renderer/components/AccountView/AccountView.jsx:28-48 | the grouping loop builds one entry per distinct truthy account id, with its posts in order |
| AccountView.SumField | src/renderer/components/AccountView/AccountView.jsx:76-82 | the loop sums the field over the posts with missing values as 0 |
| AccountView.SummarizeAccount | src/renderer/components/AccountView/AccountView.jsx:54-86 | a group's summary is its identity followed by each selected field's sum or average reach |
| AccountView.SummarizeByAccount | src/renderer/components/AccountView/AccountView.jsx:22-90 | the view computes the specified summaries, reading fields through the mapping |
| AccountView.ViewEngagement | src/renderer/components/AccountView/AccountView.jsx:74-83 | when engagement is computed by `getValue`, a summary of all four fields has engagement equal to likes+comments+shares |
| PostTypeView.GroupByPostType | src/renderer/components/PostTypeView/PostTypeView.jsx:44-59 | the grouping loop builds one entry per post type, with the type of its first post and its posts |
| PostTypeView.MetricOf | src/renderer/components/PostTypeView/PostTypeView.jsx:74-88 | the metric loop gives the sum of the parseable values and their mean (0 when none parses) |
| PostTypeView.SummarizeType | src/renderer/components/PostTypeView/PostTypeView.jsx:62-97 | a type's row has its count, its share of all filtered posts, its reliability and every metric |
| PostTypeView.AggregateByPostType | src/renderer/components/PostTypeView/PostTypeView.jsx:34-100 | the view computes the specified rows, one per post type |
| PostTypeView.FilteredMembers | src/renderer/components/PostTypeView/PostTypeView.jsx:37-40 | `all_accounts` keeps every post, any other selection exactly the posts with that account name |
| PostTypeView.AggregateShape | src/renderer/components/PostTypeView/PostTypeView.jsx:34-100 | no data or nothing after filtering gives no rows; otherwise one row per distinct type in first-seen order, with its type and count, reliable iff at least 5 posts |
| PostTypeView.TypeSummariesCount | src/renderer/components/PostTypeView/PostTypeView.jsx:62-97 | summing the rows' counts counts each grouped post once |
| PostTypeView.PostCountsSum | src/renderer/components/PostTypeView/PostTypeView.jsx:62-71 | the rows' post counts add up to the number of filtered posts |
| PostTypeView.PercentagesSum | src/renderer/components/PostTypeView/PostTypeView.jsx:69 | each share lies in (0, 100] and the shares add up to 100 |
| PostTypeView.SharesSum | src/renderer/components/PostTypeView/PostTypeView.jsx:69 | when the counts add up to the total, the shares add up to 100 |
| PostTypeView.Shares | src/renderer/components/PostTypeView/PostTypeView.jsx:69 | a type with between 1 and total posts has a share in (0, 100] |
| PostTypeView.Share | src/renderer/components/PostTypeView/PostTypeView.jsx:69 | the share is the count times 100/total, and lies in (0, 100] for 0 < count <= total |
| PostTypeView.GroupSize | src/renderer/components/PostTypeView/PostTypeView.jsx:44-59 | every type group is non-empty and no larger than the filtered posts |
| PostTypeView.ParsedCountBounds | src/renderer/components/PostTypeView/PostTypeView.jsx:78-84 | the number of parsed values is between 0 and the number of posts |
| PostTypeView.NothingParsed | src/renderer/components/PostTypeView/PostTypeView.jsx:75-87 | when nothing parses the sum is 0 |
| PostTypeView.MetricMean | src/renderer/components/PostTypeView/PostTypeView.jsx:86-87 | the mean times the number of parsed values is the sum, and both are 0 when nothing parses |
| PostTypeView.MetricMeanBounds | src/renderer/components/PostTypeView/PostTypeView.jsx:86 | when every parsed value lies in [lo, hi], so does the mean |
| ColumnMappingEditor.RenamedGet | src/renderer/components/ColumnMappingEditor/ColumnMappingEditor.jsx:86-101 | after a rename the new name holds the old internal name, the old name is gone, and every other key is unchanged |
| ColumnMappingEditor.RenamedDistinct | src/renderer/components/ColumnMappingEditor/ColumnMappingEditor.jsx:86-101 | a rename keeps the keys distinct |
| ColumnMappingEditor.RenamedLength | src/renderer/components/ColumnMappingEditor/ColumnMappingEditor.jsx:86-101 | renaming onto another existing key merges two entries; otherwise the size is unchanged |
| ColumnMappingEditor.RenameBack | src/renderer/components/ColumnMappingEditor/ColumnMappingEditor.jsx:76-102 | renaming to an unused name and back restores every entry |
| ColumnMappingEditor.RenamedShowsNewName | src/renderer/components/ColumnMappingEditor/ColumnMappingEditor.jsx:76-132 | after a rename the editor lists the new name for that internal field |
| ColumnMappingEditor.ForGroupMembers | src/renderer/components/ColumnMappingEditor/ColumnMappingEditor.jsx:118-132 | the group's rows are exactly its internal names that have a mapped column, each with that column |
| ColumnMappingEditor.ForGroupAppend | src/renderer/components/ColumnMappingEditor/ColumnMappingEditor.jsx:126-131 | rows keep the group's order |
| ColumnMappingEditor.ForGroupLength | src/renderer/components/ColumnMappingEditor/ColumnMappingEditor.jsx:126-131 | there are never more rows than names in the group |
| ColumnMappingEditor.OrderedRowsAreEntries | src/renderer/components/ColumnMappingEditor/ColumnMappingEditor.jsx:118-132 | every listed row is an entry of the mapping, and the last column mapped to a group field is listed |
| ColumnMappingEditor.InverseEntry | src/renderer/components/ColumnMappingEditor/ColumnMappingEditor.jsx:120-123 | every inverse entry comes from a mapping entry |
| ColumnMappingEditor.MappingEditor.constructor | src/renderer/components/ColumnMappingEditor/ColumnMappingEditor.jsx:18-20 | the editor starts with no mappings, no error and no success message |
| ColumnMappingEditor.MappingEditor.HandleValueChange | src/renderer/components/ColumnMappingEditor/ColumnMappingEditor.jsx:76-102 | a blank new name only sets the error `Kolumnnamn kan inte vara tomt`; otherwise the entry is renamed, and distinct keys stay distinct |
| ColumnMappingEditor.MappingEditor.HandleSave | src/renderer/components/ColumnMappingEditor/ColumnMappingEditor.jsx:48-74 | the error is cleared, the mapping is saved, both caches are cleared, success is shown, and the next read returns the saved mapping |
| JsText.TrimNoEdgeWhiteSpace | src/renderer/components/ColumnMappingEditor/columnMappingService.js:90 | trimmed text has no white space at either end |
| JsText.ToLowerCaseProperties | src/renderer/components/ColumnMappingEditor/columnMappingService.js:91 | lower-casing keeps the length and the edge and zero-width properties, gives lower-case text, and leaves lower-case text unchanged |
| JsText.CollapseSingleSpacedResult | src/renderer/components/ColumnMappingEditor/columnMappingService.js:92 | after collapsing, no two white spaces are adjacent |
| JsText.CollapseSingleSpaced | src/renderer/components/ColumnMappingEditor/columnMappingService.js:92 | collapsing single-spaced text changes nothing |
| JsText.RemoveInvisibleProperties | src/renderer/components/ColumnMappingEditor/columnMappingService.js:93 | the result has no invisible characters, is no longer than the input, and text without them is unchanged |
| JsValues.NatToStringValue | src/utils/webDataProcessor.js:235 | the digits of `String(n)` read back as n |
| JsValues.NatToStringInjective | src/utils/webDataProcessor.js:235 | distinct numbers have distinct spellings |
| JsValues.KeyOfNumbers | src/utils/webDataProcessor.js:343 | two numbers are the same object key iff they are equal |
| JsValues.KeyOfIntegralNumber | src/utils/webDataProcessor.js:343 | an integral number and its decimal string are the same object key |
| JsValues.NumericStringParses | src/renderer/components/ColumnMappingEditor/columnMappingService.js:319-321 | for a numeric string `parseFloat` and `Number` agree on its value |
| JsValues.BlankNotNumeric | src/renderer/components/ColumnMappingEditor/columnMappingService.js:319 | a blank string is not numeric |
| JsValues.ScanDecimalStops | src/renderer/components/ColumnMappingEditor/columnMappingService.js:320 | a complete decimal literal followed by white space reads as the literal alone |
| JsValues.RoundOfQuotient | src/renderer/components/AccountView/AccountView.jsx:71-73 | `Math.round(s/n)` for integers is (2s+n) div 2n |
| JsValues.RoundMonotone | src/renderer/components/AccountView/AccountView.jsx:72 | `Math.round` is monotone |
| Sorting.Sort | src/utils/webDataProcessor.js:465 | the result is a permutation of its input, sorted by key |
| Sorting.SortStable | src/utils/webDataProcessor.js:465 | the sort is stable: the elements with any one key come out in their input order |
| Sorting.SortedDistinctKeysStrict | src/utils/webDataProcessor.js:465 | a sorted list of distinct keys is strictly sorted |
| Grouping.GroupByGet | src/renderer/components/AccountView/AccountView.jsx:38-47 | a key's group is exactly the posts with that key, in order, or absent when there are none |
| Grouping.GroupByDistinct | src/renderer/components/PostTypeView/PostTypeView.jsx:50-56 | group keys are distinct |
| Grouping.GroupByEntries | src/renderer/components/PostTypeView/PostTypeView.jsx:44-59 | each group is the non-empty list of posts with its key |
| OrderedMaps.PutGet | src/utils/webDataProcessor.js:163 | an assignment changes only its own key |
| OrderedMaps.PutAppends | src/renderer/components/ColumnMappingEditor/ColumnMappingEditor.jsx:97 | assigning a new key appends it |
| OrderedMaps.PutInPlace | src/renderer/components/ColumnMappingEditor/ColumnMappingEditor.jsx:97 | assigning an existing key overwrites it in place |
| OrderedMaps.DeleteGet | src/renderer/components/ColumnMappingEditor/ColumnMappingEditor.jsx:94 | `delete` removes only its own key |
| OrderedMaps.DeleteOrder | src/renderer/components/ColumnMappingEditor/ColumnMappingEditor.jsx:94 | `delete` keeps the order of the other keys |

## Left out

- Booleans: the CSV parser's dynamic typing can give `true`/`false` cells. The model's cells are `null`, numbers and strings.
- Floating point: numbers are exact reals. Rounding, `NaN` from arithmetic and `Infinity` are not modelled.
- Numeric parsing: `parseFloat` and `Number` read signed decimal literals only. Exponents, hexadecimal, `Infinity` and the `0x`/`0b` forms are not modelled.
- String addition: a truthy non-numeric string in an `||`-guarded sum would concatenate in JavaScript. The model adds 0 for it (`NumOrZero`), because it only specifies numeric sums.
- Lower-casing: `toLowerCase` is modelled for ASCII and Latin-1 letters only. Other scripts and special cases like `İ` are not modelled.
- Duplicate keys: the composite key `${postId}|${fileIdentifier}` is a pair of keys. A post id containing `|` could collide in the source. `JSON.stringify(row)` is the row value itself.
- Property-key order: JavaScript enumerates integer-like keys first. The model keeps insertion order for every key.
- JsValues.Key: a number that is not integral and its decimal string are two keys here, but one key in JavaScript (`2.5` and `"2.5"`). This splits such values in `countUniqueAccounts`, `perKonto`, `groupedByAccount` and the post-type groups. The reason is that the model's numbers are exact reals, which have no decimal spelling in general.
- Sorting.Sort: for the same reason, a number that is not integral is ordered after every string, and not by its decimal spelling.
- WebDataProcessor.Sanitize, Sorting.StrLt: strings are sequences of code points, not UTF-16 code units. An astral character such as an emoji becomes one `_` here and two in JavaScript. It is also compared by code point, so it can order differently against characters from U+E000 to U+FFFF.
- Dates: `new Date(v)` is the `DateParser` parameter.
- Formatting helpers: `formatSwedishDate`, `formatValue` and `formatDate` (columnMappingService.js:330-355) produce display text only.
- I/O:
  - `Papa.parse` and `analyzeCSVFile` are not modelled (the parsed rows are an input);
  - local storage and the Electron/web storage services are not modelled (whether the store takes the mapping is a parameter, and saving never throws because the store catches its own errors);
  - `saveProcessedData` and console logging are not modelled.
- Unused inputs: `NON_SUMMARIZABLE_COLUMNS` is declared but never read. `handleDuplicates` and the AccountView `summarizeByAccount` take a `columnMappings` parameter they never use. These are dropped.
- Field readers: the views read fields through a `Reader`. `FieldReader` is `getValue` under a given mapping; the module-level cache it consults at run time is not threaded through.
- ColumnMappingEditor.MappingEditor.HandleValueChange: requires that a non-blank new name renames an existing key. The editor only calls it with names listed by `getOrderedMappingsForGroup` (ColumnMappingEditor.jsx:216-226). The `undefined` entry the source would write for an unknown name is not modelled.
- handleSave: the `catch` branch cannot be reached, because the store catches its own errors. The 10-second timer that hides the success message, and the `isSaving`/`isLoading` flags, are UI timing and are not modelled.
- Editor helpers: `loadMappings` only reads the current mapping. `toggleExamples` only toggles a UI flag. `handleExampleClick` is `handleValueChange` with the clicked name.
- Rendering: React rendering, pagination, sorting of table columns and the Electron menu are not modelled. `COLUMN_GROUPS` and `DISPLAY_NAMES` are data only.
- Prototype keys: keys like `__proto__` that JavaScript objects treat specially are not modelled.
