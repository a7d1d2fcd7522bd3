# cyclebar-stats: a verified model of the ride aggregation

cyclebar-stats fetches a rider's CycleBar class history and charts it month by month.
This project models its core as Dafny modules and proves properties of them.
The core is `process_data` in `app.py`. It turns the class records into a monthly series of
ride counts and top-five placements, with running totals. Beside it, the project models
`custom_sort`, which orders month keys, and the refresh decision of `get_access_token`.

- `Wrappers`: `Option` and `Result`.
- `Dates`: parsing `"YYYY-MM-DD"` the way `datetime.strptime(date, "%Y-%m-%d")` does
  (ASCII only), the calendar check, the month key `"MM/YYYY"` of `strftime("%m/%Y")`,
  and the `(year, month)` key of `custom_sort`.
- `Buckets`: the first loop of `process_data`, which fills a defaultdict of month
  buckets. It is an imperative method, `BucketRecords`, proved against a reference
  definition that uses no loop: `Tally` counts each month's records,
  and `MonthlyBuckets` writes the forced months over that count.
- `Aggregator`: `sorted(..., key=custom_sort)` (method `SortMonths`), the second loop
  (method `RunningTotals`), the final `json_data.pop()`, and `process_data` as a whole
  (method `ProcessData`). `IsMonthlySeries` states what the result is, and
  `SeriesUnique` shows that this statement allows only one result.
- `Session`: `get_access_token`, where the clock reading and the login reply are parameters.
- `Scenarios`: three classes, 2021-11-05 (rank 3), 2021-11-20 (rank 8) and 2021-12-02
  (no rank), worked through the model.

Behaviour of the code that the model keeps as written:

- The `# Manually add empty months` update (app.py:76-82) sits inside the `for` loop
  of app.py:62. It runs after every record, so it overwrites the real counts of
  11/2021 and 12/2021 with zeros. On an empty record list the loop body never runs,
  and the two months are not added at all (`Buckets.ForcedMonthsOverwrite`).
- `json_data.pop()` (app.py:103) runs unconditionally. It always drops the last row,
  the latest month. On an empty record list `json_data` is empty and `pop()` raises
  `IndexError`, modelled as `Err(PopFromEmpty)`.
- Together, these give a single row for three classes on 2021-11-05 (rank 3),
  2021-11-20 (rank 8) and 2021-12-02 (no rank). The row is `11/2021`, with zero rides
  and zero totals, and the December row is the one `pop()` drops
  (`Scenarios.ThreeClassesSeries`).
- After a refresh, `get_access_token` writes the new token to `.env` with `set_key`
  (app.py:32-37). It never reassigns the module's `access_token_expires_at`, which
  is read once at app.py:16. Every later call in the same process therefore
  refreshes again (`Session.ExpiryIsPermanent`).

## Model

| member | source | states |
|---|---|---|
| Dates.NumberOf | app.py:54 | `int()` of a string of ASCII digits: the digits read in base ten (no contract of its own; see the two rows below) |
| Dates.NumberOfBound | app.py:54 | a string of `w` digits reads as a number below ten to the `w` |
| Dates.Digits | app.py:69 | `%m` and `%Y` formatting: exactly `width` ASCII digits, zero padded |
| Dates.NumberOfDigits | app.py:54 | `int()` of a zero-padded number that fits its width gives the number back |
| Dates.DigitsOfNumber | app.py:54 | padding `int()` of a digit string to the string's length gives the string back |
| Dates.ParseDate | app.py:66 | a date `strptime` accepts is a valid calendar date (year 1..9999, month 1..12, day within the month, leap years included) whose year is the four leading digits |
| Dates.ParseMonthDay | app.py:66 | the `%m-%d` part yields only valid dates of the given year |
| Dates.CheckedDate | app.py:66 | the `datetime` constructor check: only valid dates come out |
| Dates.ParseIsoText | app.py:66 | every valid date, written as `YYYY-MM-DD`, parses back to itself |
| Dates.MonthKeyOfIsoText | app.py:66-69 | on a ten-character date, the month key is the text's month, a slash, and its year |
| Dates.MonthKey | app.py:69 | `strftime("%m/%Y")`: the key is always two digits, a slash and four digits |
| Dates.SortKey | app.py:53-54 | `custom_sort`: the key's year and month read as integers, a year below 10000 and a month below 100 |
| Dates.KeyLess | app.py:85 | the tuple comparison `sorted` applies to the `custom_sort` keys: year first, then month (no contract of its own; see `KeyLessTotal` and `KeyOrderIsChronological`) |
| Dates.SortKeyOfMonthKey | app.py:53-54 | `custom_sort` on the key of a date gives `(year, month)`, and the key has the `MM/YYYY` shape |
| Dates.MonthKeyOfSortKey | app.py:53-54 | a month key is the formatting of the two numbers `custom_sort` reads from it |
| Dates.SortKeyInjective | app.py:53-54 | two month keys have the same sort key if and only if they are equal |
| Dates.KeyLessTotal | app.py:53-54 | the order of the sort keys is total and asymmetric on month keys |
| Dates.KeyOrderIsChronological | app.py:53-54 | key order is chronological order of the months, year first, in both directions |
| Dates.YearBoundary | app.py:53-54 | `12/2021` sorts before `01/2022`, although it comes after it as text |
| Buckets.IsTopFive | app.py:73 | `rank is not None and rank < 6`: a null rank never counts, zero and negative ranks do (no contract of its own) |
| Buckets.GetOrZero | app.py:59 | the defaultdict lookup: the month's bucket, or a zero bucket when it is missing (no contract of its own) |
| Buckets.AddRecord | app.py:71-74 | one record's increments to a bucket (no contract of its own; see `Increment`) |
| Buckets.Increment | app.py:71-74 | the defaultdict update of one month for one record (no contract of its own; see the next row) |
| Buckets.IncrementUpdatesOneMonth | app.py:71-74 | the defaultdict update adds the month if missing, gives it one more ride and one more placement when the rank is top five, and changes no other month |
| Buckets.Pass | app.py:71-82 | one pass of the loop: the defaultdict update, then the forced months (no contract of its own; see the next row) |
| Buckets.PassForcesMonths | app.py:71-82 | after a pass 11/2021 and 12/2021 are present and zero, the keys are the old keys, the record's month and the two forced months, and every other month holds the defaultdict update |
| Buckets.Tally | app.py:62-74 | the reference without a loop: for each month some record falls in, the number of its records and of its top-five records (no contract of its own; see `TallyStep` and `ForcedMonthsOverwrite`) |
| Buckets.MonthlyBuckets | app.py:59-82 | the reference for the map after the loop: empty for no records, otherwise the tally with the forced months written over it (no contract of its own; `BucketRecords` is proved equal to it) |
| Buckets.TallyStep | app.py:71-74 | counting one more record updates exactly its own month: one ride, plus one top-five placement if the rank is below 6 |
| Buckets.ForcedOverwriteStep | app.py:76-82 | writing the forced months before a pass makes no difference to the map after the pass's own overwrite |
| Buckets.PassPreservesBuckets | app.py:62-82 | one pass of the loop (count the record, then overwrite the forced months) takes the buckets of a prefix to the buckets of the prefix plus the record |
| Buckets.TopFiveAtMostRides | app.py:71-74 | no month has more top-five placements than rides |
| Buckets.BucketsAreConsistent | app.py:71-82 | after the loop, every bucket, the forced ones included, has `topFive <= rides` |
| Buckets.ForcedMonthsOverwrite | app.py:76-82 | with no records the map is empty; otherwise 11/2021 and 12/2021 are present and zero whatever the records hold, and any other month is present if and only if some record falls in it, with that month's counts |
| Buckets.CountPermutation | app.py:62-74 | a month's counts depend only on the multiset of the records |
| Buckets.BucketsOrderIndependent | app.py:62-82 | the buckets after the loop do not depend on the order of the records |
| Buckets.TallyAccountsForEveryRecord | app.py:62-71 | before the overwrite, the ride counts over all months add up to the number of records |
| Buckets.CountRecord | app.py:71-82 | the loop body, written with the loop's own statements, computes exactly one `Pass` |
| Buckets.BucketedUpToPrefix | app.py:62-82 | the map the loop builds pass by pass is the reference buckets of the records consumed so far |
| Buckets.BucketRecords | app.py:59-82 | succeeds if and only if every date parses, with the reference buckets of all records; otherwise fails at the first record whose date does not parse |
| Aggregator.MonthlyBucketKeys | app.py:69 | when every date parses, every key of the map is a month key `MM/YYYY` |
| Aggregator.SortMonths | app.py:85 | the keys in strictly ascending `custom_sort` order, each key exactly once |
| Aggregator.SortedUnique | app.py:85 | two strictly sorted lists of the same month keys are equal, so the sorted order is unique |
| Aggregator.RunningTotals | app.py:87-101 | one row per month in the given order, with that month's counts, and totals that are the sums over the rows so far |
| Aggregator.SnocKeepsTotals | app.py:90-101 | appending a row whose totals add its counts to the previous totals keeps the running totals |
| Aggregator.TotalsNonDecreasing | app.py:87-101 | both running totals never decrease along the series |
| Aggregator.TotalsRecurrence | app.py:90-92 | the first total is the first count; each later total is the previous total plus the month's count |
| Aggregator.SeriesTopFiveBounded | app.py:90-101 | no row and no running total has more top-five placements than rides |
| Aggregator.DropLastIsSeries | app.py:103 | dropping the last row of all sorted months leaves the monthly series: all months but the latest |
| Aggregator.LeftOutMonth | app.py:103 | the one month of the map missing from the series is later than every month listed |
| Aggregator.ProcessData | app.py:57-104 | succeeds if and only if every date parses and there is at least one record; on success it gives the monthly series of the buckets; on empty input the pop fails; on a bad date it fails at the first such record |
| Aggregator.SeriesUnique | app.py:57-104 | the monthly series of a bucket map is unique, so `ProcessData`'s result is fully determined |
| Scenarios.ThreeClassesParse | app.py:66-69 | the three dates parse into the months 11/2021, 11/2021 and 12/2021 |
| Scenarios.TallyOfThree | app.py:71-74 | two records of one month, ranks 3 and 8, and one of another month with no rank count as (2 rides, 1 top five) and (1, 0) |
| Scenarios.ThreeClassesTally | app.py:62-74 | before the overwrite, November 2021 has 2 rides (1 top five) and December 2021 has 1 ride (0 top five) |
| Scenarios.ThreeClassesSeries | app.py:76-104 | the overwrite zeroes both months, and the result is the single row `11/2021` with all counts zero |
| Session.NeedsRefresh | app.py:21 | the refresh test `timestamp_seconds >= access_token_expires_at` (no contract of its own; see `CacheHitIffNotExpired`) |
| Session.GetAccessToken | app.py:19-40 | before the expiry, the cached token is returned and nothing is written; at or after it, the login reply's token is returned and persisted, or the call fails when the reply lacks the fields |
| Session.CacheHitIffNotExpired | app.py:20-21 | the cached token is used without a write if and only if `now < expiry`; a refresh is written if and only if `now >= expiry` and the reply is well formed |
| Session.ExpiryIsPermanent | app.py:19-37 | once expired, every later call with the same module credentials refreshes again |
| Session.PersistedTokenIsReused | app.py:32-40 | a process that starts from the persisted credentials uses the new token without logging in until the new expiry |

## Left out

- HTTP: the login POST (app.py:22-29) and `get_data` (app.py:43-49) are not modelled. The login reply is a parameter of `Session.GetAccessToken`, and the class records are a parameter of `Aggregator.ProcessData`.
- Environment and `.env`: `load_dotenv`, `os.getenv` and the module-level globals (app.py:10-16) are parameters. `set_key` (app.py:32-37) is modelled as the `persisted` field of the outcome; the file write itself is not modelled.
- Session.GetAccessToken: the clock `int(time.time())` (app.py:20) is the integer parameter `now`. The truncation of the float is not modelled.
- Session.ExpiryIsPermanent: the model holds no process state. That app.py never reassigns the module's `access_token_expires_at` is not derived; the lemma's caller passes the same credentials again.
- Session.GetAccessToken: a login reply that is not JSON, or that reports an HTTP error, is folded into the `None` reply (`MalformedLoginReply`).
- `create_dataframe`, `create_plot`, pandas, plotly and the `__main__` block (app.py:107-142) are presentation or entry code and are not modelled.
- `print(class_entry["rank"])` (app.py:72) has no effect on the result and is not modelled.
- Aggregator.ProcessData: a record without the `schedule_entry`, `date` or `rank` keys (a `KeyError`) is not modelled.
- Aggregator.ProcessData: a rank that is not an `int` is not modelled. A string rank raises `TypeError` at app.py:73, and a float rank compares with 6 normally. A record is a date text and an optional integer rank.
- Dates.ParseDate: only ASCII digits are accepted. Python's `strptime` also accepts other Unicode decimal digits, and it matches the format without regard to case.
- Dates.Digits: `%Y` is modelled as four zero-padded digits. For years below 1000 the padding of `strftime` depends on the platform.
- Aggregator.SortMonths: `sorted()` is a library call. It is modelled by an insertion sort with the same contract: strictly ascending order by `custom_sort`. Stability does not matter because the keys of a map are distinct.
