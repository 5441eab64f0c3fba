# juneadmin waitlist dashboard: a Dafny model

This project models the record pipeline of the `AdminDashboard` page of the
June waitlist admin console (`src/app/admin/page.tsx`). The page loads the
`waitlist` table and keeps the rows in React state. It then does three
things with them:

- it filters the rows by a search term, sorts them by a chosen column and
  cuts them into pages of 50;
- it exports the filtered rows as CSV;
- it computes the figures of the analytics panel (`getAnalytics`): time
  windows and growth rates, age and priority statistics, location and batch
  tables, contact-detail counts, hour and weekday histograms and the 31-day
  growth chart.

The component's state is the class `AdminDashboard.Dashboard`. Its fields are
`waitlistData`, `filteredData`, `isLoading`, `totalEntries`, `searchTerm`,
`sortConfig` and `currentPage`. The handlers that change that state are
methods that keep one invariant, `Valid`: the view is the search result,
and it is in the configured order whenever a column is chosen.

Each pure part of the page is a module of functions and lemmas:

- the search predicate (`SearchFilter`);
- the comparator and its total order (`Sorting`);
- page slicing and the pager clamps (`Pagination`);
- the CSV text (`CsvExport`);
- the figures of the panel: `Windows`, `Demographics`, `Distributions`,
  `Stats` and `Tables`. `Analytics` combines them.

Three pieces of the source update values in loops or in place, so they stay
imperative:

- the in-place `Array.prototype.sort` of the view and of the age list is an
  insertion sort on an `array`, proved sorted and a permutation;
- the `reduce` into an accumulator object is a loop that keeps a tally;
- the `for` loop that fills the growth chart is a loop proved equal to its
  specification function.

A row is the datatype `Entries.Entry`, with the fifteen columns of
`WaitlistEntry` in declaration order. A nullable column is an `Option`.

`created_at` keeps its text, for sorting and searching. It also keeps what
`new Date(...)` makes of it: an instant, the local hour and the local
weekday, or `None` for an invalid date. An invalid date falls in no window
and no bucket.

`date-fns` and the clock are not modelled. The instants the panel derives
from `now` are given as a `Windows.Clock`. The `Windows.Calendar` predicate
states only the order facts the calendar guarantees, for example that the
start of the month is at or before the start of today.

## Model

| member | source | states |
|---|---|---|
| AdminDashboard.Dashboard.constructor | src/app/admin/page.tsx:38-46 | initial state: empty store and view, loading, total 0, empty term, no sort, page 1; the invariant holds |
| AdminDashboard.Dashboard.ReplaceStore | src/app/admin/page.tsx:53-73 | an error leaves the store, the total and the view unchanged; otherwise the store becomes `data` or `[]`, the total becomes `count` or 0 and the view is recomputed; loading ends either way; term, sort and page are unchanged and the invariant holds |
| AdminDashboard.Dashboard.ApplyFiltersAndSearch | src/app/admin/page.tsx:97-118 | the view becomes a permutation of the search result: equal to it when no column is chosen, sorted by the configured column and direction when one is; nothing else changes |
| AdminDashboard.Dashboard.SetSearchTerm | src/app/admin/page.tsx:97-104 | a new term re-derives the view and keeps the invariant; store, sort, page, loading flag and total are unchanged, so the page number is not reset |
| AdminDashboard.Dashboard.HandleSort | src/app/admin/page.tsx:135-140 | the configuration becomes the toggled one and the view is re-sorted by it; store, term, page, loading flag and total are unchanged |
| AdminDashboard.Dashboard.TotalPageCount | src/app/admin/page.tsx:181 | just enough pages of 50 to hold the view; 0 exactly when the view is empty |
| AdminDashboard.Dashboard.PaginatedData | src/app/admin/page.tsx:175-179 | at most 50 rows; the rows of the view from `(page-1)*50` up to `page*50`; every row shown is in the store and matches the term |
| AdminDashboard.Dashboard.PreviousPage | src/app/admin/page.tsx:647 | the page moves back one and never below 1; nothing but the page changes |
| AdminDashboard.Dashboard.NextPage | src/app/admin/page.tsx:657 | the page moves forward one and never past the page count; on an empty view it becomes 0; nothing but the page changes |
| SearchFilter.Search | src/app/admin/page.tsx:98-104 | keeps exactly the rows that match, and only rows of the store; the empty term keeps the whole store |
| SearchFilter.MatchesIff | src/app/admin/page.tsx:99-102 | for a non-empty term, a row matches iff the lower-cased text of some non-null column contains the lower-cased term at some position |
| SearchFilter.AnyMatchesIffSome | src/app/admin/page.tsx:100-102 | `some` over the column values holds iff one value matches |
| SearchFilter.AnyMatchesIffOccurs | src/app/admin/page.tsx:100-102 | a value matches iff its lower-cased text has the lower-cased term as a substring |
| SearchFilter.SearchIsSubsequence | src/app/admin/page.tsx:98 | the result keeps the store's order |
| SearchFilter.SearchConcat | src/app/admin/page.tsx:98 | filtering distributes over concatenation of stores |
| SearchFilter.SearchSingle | src/app/admin/page.tsx:98-104 | a one-row store gives the row back iff it matches |
| SearchFilter.SearchCaseInsensitive | src/app/admin/page.tsx:101 | the result does not depend on the case of the term |
| Text.Lower | src/app/admin/page.tsx:101 | `toLowerCase` keeps the length, lowers each character and leaves no upper-case letter |
| Text.IncludesIffOccurs | src/app/admin/page.tsx:101 | `includes` holds iff the needle occurs at some index |
| Text.IntToText | src/app/admin/page.tsx:101 | `toString` of an integer is non-empty and made of digits and a minus sign |
| Text.IntToTextRoundTrip | src/app/admin/page.tsx:268 | reading back the text of a number gives the number |
| Text.SplitJoin | src/app/admin/page.tsx:147-149 | splitting the `join` of parts that do not contain the separator gives the parts back |
| Text.SplitCount | src/app/admin/page.tsx:149 | the number of pieces is one more than the number of separators |
| Text.JoinCount | src/app/admin/page.tsx:147-149 | a joined text holds one separator between each two parts, plus those inside the parts |
| Sorting.SortInPlace | src/app/admin/page.tsx:107 | the in-place sort leaves the array sorted by any consistent comparator and a permutation of what it was |
| Sorting.Insert | src/app/admin/page.tsx:107 | one pass of the sort: with the prefix before `i` sorted, moving `a[i]` left leaves the prefix up to `i` sorted and the array a permutation of what it was |
| Sorting.TextLessIrreflexive | src/app/admin/page.tsx:111 | JavaScript's `<` on strings is irreflexive |
| Sorting.TextLessTransitive | src/app/admin/page.tsx:111 | JavaScript's `<` on strings is transitive |
| Sorting.TextLessTotal | src/app/admin/page.tsx:111-112 | two different strings are ordered one way or the other |
| Sorting.KeyKind | src/app/admin/page.tsx:108-109 | the numeric columns compare as numbers and the others as text |
| Sorting.KeyLessOrder | src/app/admin/page.tsx:111-112 | the order on column values is a strict total order |
| Sorting.CompareMeaning | src/app/admin/page.tsx:107-114 | the comparator is at most 0 exactly when the first row may stay before the second in the chosen direction; it is antisymmetric; it is 0 exactly on equal keys |
| Sorting.CompareConsistent | src/app/admin/page.tsx:107-114 | the comparator is a consistent total preorder, so sorting by it is well defined |
| Sorting.SortEntries | src/app/admin/page.tsx:106-115 | the rows end up in the configured order and are a permutation of the input |
| Sorting.ToggleSort | src/app/admin/page.tsx:135-140 | the chosen column becomes the key; the direction is descending exactly when the same column was ascending |
| Sorting.ToggleSortAlternates | src/app/admin/page.tsx:138 | clicking the same column twice flips the direction; a new column always starts ascending |
| Pagination.SliceIndex | src/app/admin/page.tsx:178 | `slice` bounds: negative indices count from the end and large ones are clamped to the length |
| Pagination.PageOf | src/app/admin/page.tsx:175-179 | a page has at most 50 rows, namely rows `(page-1)*50` up to `page*50` of the data; page 0 is empty |
| Pagination.TotalPages | src/app/admin/page.tsx:181 | `ceil(n / 50)`: enough pages for `n` rows and not one more; 0 exactly when there are no rows |
| Pagination.PagesPrefix | src/app/admin/page.tsx:175-181 | the first `k` pages laid end to end are the first `k*50` rows |
| Pagination.PagesCoverAll | src/app/admin/page.tsx:175-181 | pages 1 to `totalPages` laid end to end are exactly the data |
| Pagination.Previous | src/app/admin/page.tsx:647 | `max(page-1, 1)`: one page back, never below 1 |
| Pagination.Next | src/app/admin/page.tsx:657 | `min(page+1, totalPages)`: one page on, never past the last |
| Pagination.NextPreviousRoundTrip | src/app/admin/page.tsx:647-657 | Previous undoes Next, and Next undoes Previous, away from the ends |
| CsvExport.CsvEmpty | src/app/admin/page.tsx:147-149 | exporting no rows gives the empty text |
| CsvExport.KeysFree | src/app/admin/page.tsx:147 | no column name contains a comma or a newline |
| CsvExport.HeaderFree | src/app/admin/page.tsx:147 | the header line holds no newline |
| CsvExport.LinesFree | src/app/admin/page.tsx:147-149 | when no value holds a newline, neither the header nor any row line does |
| CsvExport.RowFree | src/app/admin/page.tsx:148 | a character other than a comma that no cell contains does not appear in the row |
| CsvExport.CsvLines | src/app/admin/page.tsx:147-149 | when no cell holds a newline, the export's lines are the header and then each row's line: one line per row plus one |
| CsvExport.CsvLineCount | src/app/admin/page.tsx:147-149 | in general the export has one line per row plus one, plus one for every newline inside a cell |
| CsvExport.RowColumns | src/app/admin/page.tsx:148 | when no cell holds a comma, splitting a row at commas gives its cells back |
| CsvExport.RowColumnCount | src/app/admin/page.tsx:148 | a row splits into fifteen fields plus one for every comma inside a cell |
| CsvExport.HeaderColumns | src/app/admin/page.tsx:147 | the header of a non-empty export splits into the column names |
| Tables.Tally | src/app/admin/page.tsx:258-262 | the accumulator loop builds a table with one bucket per distinct key, in order of first appearance, each counting that key's occurrences |
| Tables.BumpKeepsTally | src/app/admin/page.tsx:260 | adding one to the bucket of a key already present keeps the table the tally of the keys seen, that key included |
| Tables.AppendKeepsTally | src/app/admin/page.tsx:260 | a new key appended with count 1 keeps the table the tally of the keys seen, that key included |
| Tables.TallyCountOf | src/app/admin/page.tsx:260 | a key's count in the table is its number of occurrences, and a key is in the table iff it occurs |
| Tables.TopOfSorted | src/app/admin/page.tsx:263 | a prefix of the table sorted by count descending is in descending order, is part of the table, and no bucket left out has a larger count than one kept |
| Tables.Top | src/app/admin/page.tsx:263 | `sort(by count desc).slice(0, n)`: the first `n` buckets, or all if there are fewer, with the largest counts, in descending order |
| Stats.MinOf | src/app/admin/page.tsx:239 | `Math.min(...)` is an element and a lower bound |
| Stats.MaxOf | src/app/admin/page.tsx:240 | `Math.max(...)` is an element and an upper bound |
| Stats.MeanBetween | src/app/admin/page.tsx:238-240 | the average of a non-empty list lies between its minimum and maximum |
| Stats.HistogramSum | src/app/admin/page.tsx:289-299 | the buckets add up to the items whose slot is in range |
| Stats.PeakIndex | src/app/admin/page.tsx:293 | the `reduce` that keeps a strictly larger count picks the first index with the largest count |
| Windows.SinceMono | src/app/admin/page.tsx:211-229 | a window that starts later holds no more entries |
| Windows.UntilMono | src/app/admin/page.tsx:311 | a later cut-off counts no fewer entries |
| Windows.SinceSplit | src/app/admin/page.tsx:211-225 | `[lo, hi)` and `[hi, ...)` are disjoint and together make `[lo, ...)` |
| Windows.BetweenSplit | src/app/admin/page.tsx:312-315 | adjacent half-open windows add up to their union |
| Windows.WindowsNested | src/app/admin/page.tsx:210-229 | today is within this week and month, month within year; 7 within 30 within 90 days; last hour within 24 hours within 7 days; yesterday plus today is everything since yesterday, and likewise for the weeks and the months |
| Windows.GrowthRateMeaning | src/app/admin/page.tsx:232-234 | with no earlier sign-ups the rate is 0; otherwise it is the percentage change that takes the earlier count to the current one, never below -100, positive iff the count grew and 0 iff it stayed |
| Windows.SeriesSpec | src/app/admin/page.tsx:308-321 | the chart has 31 points, one per day from 30 days back to today |
| Windows.LastPointIsToday | src/app/admin/page.tsx:308-321 | the last point of the chart is today: its total counts every row up to `now`, and its daily count is the part of `usersToday` created before tomorrow |
| Windows.GrowthSeries | src/app/admin/page.tsx:308-321 | the chart loop, from 30 days back to today, builds exactly the specified series |
| Windows.SeriesTotalsGrow | src/app/admin/page.tsx:311 | the running totals of the chart never decrease |
| Windows.DaysBackOrdered | src/app/admin/page.tsx:310-314 | going further back moves the instant and the day's start and end earlier |
| Windows.DailyTile | src/app/admin/page.tsx:312-315 | the daily counts of the first `n` points add up to the entries created from the start of the oldest day to the end of the `n`-th day |
| Windows.DormantPeriods | src/app/admin/page.tsx:324 | no more dormant days than chart points |
| Windows.DormantComplement | src/app/admin/page.tsx:324 | dormant days and days with sign-ups make up the chart |
| Demographics.AgeData | src/app/admin/page.tsx:237 | exactly the rows with a positive age |
| Demographics.GroupsDisjoint | src/app/admin/page.tsx:241-246 | the age groups do not overlap, 25 and 26 fall in adjacent groups, and 17 is in none |
| Demographics.GroupsCover | src/app/admin/page.tsx:241-246 | the groups plus those under 18 make up the rows with an age |
| Demographics.WithoutAge | src/app/admin/page.tsx:355 | `totalUsers - ageData.length` counts the rows without a usable age |
| Demographics.AgeStatsBounds | src/app/admin/page.tsx:238-240 | with no ages all figures are 0; otherwise 0 < min <= average <= max |
| Demographics.ByAgeConsistent | src/app/admin/page.tsx:356 | `a.age - b.age` is a consistent comparator |
| Demographics.SortedMiddle | src/app/admin/page.tsx:356 | the middle element of any sorted arrangement of the ages is a median of the ages: it is one of them, at most `floor(n/2)` are younger and at most `n - floor(n/2) - 1` older |
| Demographics.MedianAge | src/app/admin/page.tsx:356 | the age at index `floor(n/2)` after an in-place sort is a median of the ages, 0 with none, and lies between min and max |
| Demographics.MedianBetween | src/app/admin/page.tsx:356 | a median lies between the minimum and maximum age |
| Demographics.PriorityData | src/app/admin/page.tsx:249 | exactly the rows with a score |
| Demographics.PriorityBands | src/app/admin/page.tsx:249-255 | high, medium and low make up the store; with no scores the figures are 0, otherwise min <= average <= max |
| Demographics.AbsentScoreIsLow | src/app/admin/page.tsx:253-255 | a row with no score counts as low priority only |
| Demographics.AllSocialBounds | src/app/admin/page.tsx:281 | rows with all three handles filled are counted, and every row counted has an Instagram handle |
| Demographics.AllSocialCountsBlanks | src/app/admin/page.tsx:278-281 | three blank handles count towards "all social" but towards none of the single networks |
| Demographics.ContactsBounded | src/app/admin/page.tsx:275-283 | every one of the nine contact counts is at most the number of rows; complete profiles all have an age |
| Demographics.ContactsConcat | src/app/admin/page.tsx:275-283 | each contact count over two batches of rows is the sum of its counts over each |
| Demographics.ContactsOfOne | src/app/admin/page.tsx:275-283 | for a single row, each count is 1 exactly when the row passes that count's test, and 0 otherwise |
| Distributions.LocationDistribution | src/app/admin/page.tsx:258-262 | the location table tallies each row's location, `'Unknown'` standing for a missing one |
| Distributions.LocationTable | src/app/admin/page.tsx:258-264 | the counts add up to the rows, and the keys are exactly the rows' locations |
| Distributions.UnknownBucket | src/app/admin/page.tsx:259 | the `'Unknown'` bucket counts the rows whose key is `'Unknown'`, including every row without a location |
| Distributions.WithoutLocationComplement | src/app/admin/page.tsx:370 | rows without a usable location and rows with one make up the store; every row with no location is among them |
| Distributions.TopLocations | src/app/admin/page.tsx:263-264 | at most ten buckets, the largest counts in descending order; `uniqueLocations` is the number of keys |
| Distributions.BatchKeyMeaning | src/app/admin/page.tsx:268 | a row goes to `'No Batch'` iff its batch number is falsy (batch 0 included); otherwise the key reads back as the batch number |
| Distributions.BatchDistribution | src/app/admin/page.tsx:267-271 | the batch table tallies each row's batch key |
| Distributions.NoBatchBucket | src/app/admin/page.tsx:267-272 | the counts add up to the rows; the `'No Batch'` bucket is `usersWithoutBatch`; `totalBatches` drops that bucket only when it is present |
| Distributions.BatchKeysInUse | src/app/admin/page.tsx:267-272 | the keys other than `'No Batch'` are exactly the batch numbers in use, so `totalBatches` is never negative |
| Distributions.HistogramsCover | src/app/admin/page.tsx:289-300 | 24 hour buckets and 7 day buckets, each adding up to the rows with a valid date (all rows when every date is valid) |
| Distributions.PeakHour | src/app/admin/page.tsx:293 | the earliest hour with the most sign-ups, and its count |
| Distributions.PeakDay | src/app/admin/page.tsx:295-300 | the name of the first weekday with the most sign-ups, and its count |
| Analytics.EmptyStoreRatesAreNaN | src/app/admin/page.tsx:284-286 | as written, an empty store gives `NaN` for all three completion rates |
| Analytics.CompletionRateMeaning | src/app/admin/page.tsx:284-286 | the guarded rate is between 0 and 100, equals the written formula on a non-empty store, is 100 iff every row counts, and is 0 on an empty store |
| Analytics.AgeFigures | src/app/admin/page.tsx:237-246 | given a median as the sort yields it, the age statistics and groups meet their bounds: groups within the rows with an age, those within the store, the median between min and max |
| Analytics.ContactFigures | src/app/admin/page.tsx:275-286 | the contact counts with their guarded completion rates, each between 0 and 100 |
| Analytics.TimeAnalytics | src/app/admin/page.tsx:201-234 | the time figures are the window counts, their growth rates, the growth chart and its dormant days, and the hour and weekday histograms with their peaks |
| Analytics.PeopleAnalytics | src/app/admin/page.tsx:236-286 | the age, median, priority and contact figures with their bounds; completion rates between 0 and 100 |
| Analytics.TableAnalytics | src/app/admin/page.tsx:257-272 | the location and batch tables are tallies of the store; `topLocations` holds ten buckets, or all when there are fewer, in descending order, and no bucket left out has a larger count than one kept; unique count and batch counts as above |
| Analytics.Analyze | src/app/admin/page.tsx:201-400 | `getAnalytics`: `totalUsers` is the store size and every other figure meets its specification |

## Left out

- Fetching and realtime updates (`fetchWaitlistData`, `setupRealtimeSubscription`, src/app/admin/page.tsx:53-95) are network I/O. What a fetch brings back is the parameter of `ReplaceStore`. The server-side ordering by `created_at` is not modelled: the store is whatever sequence arrives.
- The access check through `localStorage`, the router redirect, `middleware.ts` and the `unauthorized` page are not part of this model. Neither is the rest of the repository: `src/app/page.tsx`, the layouts and `tailwind.config.ts`.
- The CSV download (`Blob`, object URL, the file name with today's date) and the JSON export (src/app/admin/page.tsx:151-166) are browser I/O. The model stops at the CSV text.
- Rendering (src/app/admin/page.tsx:402-1088) is left out: the table markup, the user modal, the charts, and the percentages computed in the markup (location coverage at :854, complete profiles at :891, access codes at :896, batch coverage at :991, and the average per batch at :987). All but the last share the unguarded division of the completion rates; the average per batch checks `totalBatches > 0` first.
- The `date-fns` calls and `now` are left out. Their results are the parameter `Windows.Clock`, and `Windows.Calendar` states only their order and that the chart's last day is today and ends at `now`.
- The chart's day label (`format(date, 'MMM dd')`) is carried as given text.
- `averagePerDay` (src/app/admin/page.tsx:304-305) is left out, although it is returned (:345) and shown (:744). It divides by `differenceInDays(now, <created_at of the last row>)`, a whole-day difference outside the clock model. That difference is 0 when the last row is less than a day old, and the figure is then `Infinity`.
- `hourlyDistribution` and `dayOfWeekDistribution` are modelled as lists of counts indexed by hour and by weekday, not as lists of `{hour, count}` and `{day, count}` objects.
- `toFixed` and other number formatting happen only in the markup and are left out.
- Figures are exact reals. Floating-point rounding of averages and rates is not modelled.
- Ages and scores are integers. A fractional `age` or `priority_score` is not modelled.
- `Text.Lower` folds ASCII letters only. Unicode case mapping is not modelled.
- `Sorting.KeyOf` gives a null text column the key `""`. JavaScript compares `null` with a string by converting both to numbers, which makes the comparator inconsistent, and the order it then produces depends on the engine.
- `Sorting.SortEntries`, `Sorting.SortInPlace`: stability of the sort is not stated. Rows with equal keys are a permutation of each other's places, but their relative order is not specified.
- `Tables.Tally`: buckets are in order of first appearance. JavaScript puts integer-like object keys (every batch number, and a location such as `"123"`) first, in ascending numeric order, so the order of the batch table and the tie order inside `topLocations` can differ. Apart from that order, counts, keys and totals agree for ordinary keys. The accumulator is `{}`, which inherits from `Object.prototype`. A location named `constructor` or `__proto__` therefore does not start from 0. For `constructor`, `acc[location] || 0` is the inherited function, and the bucket's value becomes the text `"function Object() { [native code] }1"`. For `__proto__`, assigning a string is ignored, and the key never appears. The model counts both names like any other.
- `Distributions.LocationDistribution`: the same difference. A row whose location is `constructor` or `__proto__` is counted in the model, and in the source it is not.
- `Tables.Top`, `Distributions.TopLocations`: the order among buckets with equal counts is not stated. The source's stable sort keeps table order for them. The model states only that the counts descend and that no bucket left out has a larger count than one kept.
- `Sorting.TextLess`: strings compare by Unicode code point, where JavaScript compares UTF-16 code units. The two orders differ only for an astral character (an emoji, say) against a character from U+E000 to U+FFFF.
- `Entries.Values`: `Object.values` and `Object.keys` follow the column order the database returns. The model assumes the order of the `WaitlistEntry` interface.
- `Analytics.ContactFigures`, `Analytics.PeopleAnalytics`, `Analytics.Analyze`: the completion rates they report are the corrected ones, 0 when the store is empty, where the source gives `NaN` (see Findings). The as-written rate is `Analytics.RatioAsWritten`.
- `AdminDashboard.Dashboard.SetSearchTerm`: a new term does not send the view back to page 1, as in the source, so the page can lie past the last page until the user moves.
- `AdminDashboard.Dashboard.NextPage`: on an empty view the source's `Math.min(prev + 1, 0)` moves to page 0; the model keeps that.

## Findings

| source | as written | input that shows it | evidently intended | confidence | as-written member | corrected member |
|---|---|---|---|---|---|---|
| src/app/admin/page.tsx:284-286 | `usersWithEmail / totalUsers * 100` (and the same for phone and name) with no guard on `totalUsers` | `waitlistData = []`: `0 / 0` is `NaN`, shown as "NaN%" | 0 when there are no users, as the growth rates at :232-234 guard their divisor | high, not executed | Analytics.EmptyStoreRatesAreNaN | Analytics.CompletionRateMeaning |
