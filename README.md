# Anti-cheat log reconciliation, modelled in Dafny

This project models the reconciliation pipeline of `main.py`: a game client's
and a game server's anti-cheat event logs are read for one target date,
correlated by error id, enriched with the ban registry (`cheaters`), stripped
of events that fall too close to a player's ban, and reshaped into the rows of
the `result_info` table. Every stage is a pure function over sequences of
records; timestamps are integer epoch seconds and a ban time is an
`Option<int>` (None stands for pandas' NaT).

Modules, one per stage of the source:

- `Calendar` (calendar.dfy): the conversion of epoch seconds to a calendar
  instant (`pd.to_datetime(..., unit='s')`); the proleptic Gregorian calendar of
  Python's `datetime.date`, with epoch days; and the reading of the target date
  by `datetime.strptime(date, '%Y-%m-%d')`, including the spellings it accepts
  (`2021-5-1`, a space-padded day) and the ones it rejects. POSIX time is
  assumed: 86400 seconds per day, no leap seconds.
- `Ingest` (ingest.dfy): `CSVHandler`. The reader's chunks, the per-chunk
  conversion and date filter, the list of processed chunks and `pd.concat`.
- `Joins` (joins.dfy): the inner join on `error_id` with `_client`/`_server`
  suffixes, the collection of the joined player ids, the registry lookup, and
  the left join on `player_id`.
- `Processing` (processing.dfy): `filter_df`, `transform_data`, and the
  pipeline of `Processing.main`.
- `Scenarios` (scenarios.dfy): end-to-end runs for the target date 2021-05-21.
- `Records`, `Seqs`, `Wrappers`: the row types, sequence facts, Option/Result.

Design decisions:

- Client rows carry `player_id` and server rows carry `event_id`. The source
  reads an unsuffixed `merged_df.player_id` and renames only the timestamp and
  description columns, so these are the only columns that collide.
- The converted timestamp is kept as seconds. The conversion is
  `FromEpochSeconds` (day and second of day, by floor division), and the
  calendar-date test is "the epoch day of the timestamp equals the epoch day
  of the target date". `EpochDayInjective` shows that comparing epoch days is
  the same as comparing calendar dates. `EpochDayNext` shows that consecutive
  dates are consecutive epoch days, so the epoch day of a date is the number
  of days between it and 1970-01-01, which is the day the timestamp division
  counts.
- The reader's output is modelled as what iterating it yields. A missing file
  gives an empty frame with no chunks; a file with data rows gives chunks of
  `CHUNK_SIZE` rows in file order. A file with a header and no rows gives one
  empty chunk, which is how pandas' chunked reader behaves.
- Join order follows pandas' documented order: left rows in order, each with
  its matches in the order of the right side. The counting and membership
  properties do not depend on it.
- Two behaviours of the code are easy to misread, and the model follows the
  code. First, a missing log is not read as an empty event set:
  `pd.concat` of the empty list of chunks raises, so the run fails with
  `NothingToConcatenate`. Second, the temporal filter drops every row with
  `ban_time - 24h < timestamp_server`, including rows at or after the ban
  time. It does not only drop the 24 hours before the ban.
- A malformed target date raises only when at least one chunk is processed,
  because `strptime` runs inside the per-chunk `date_filter`.

## Model

| member | source | states |
|---|---|---|
| `Calendar.FromEpochSeconds` | main.py:64-67 | the instant of an epoch-second count has a second of day in [0, 86400) and day * 86400 + second equal to the count |
| `Calendar.InstantRoundTrip` | main.py:66 | every well-formed instant is the conversion of exactly one epoch-second count |
| `Calendar.DayOfInstant` | main.py:61 | a timestamp lies on epoch day d iff d * 86400 <= ts < d * 86400 + 86400 |
| `Calendar.EpochDayMonotone` | main.py:60-61 | epoch days strictly increase in calendar order of valid dates |
| `Calendar.EpochDayInjective` | main.py:60-61 | two valid dates have the same epoch day iff they are the same date |
| `Calendar.EpochDay` | main.py:60-61 | 1970-01-01 is epoch day 0 and 1969-12-31 is day -1; `EpochDayNext`, `EpochDayMonotone` and `EpochDayInjective` state that it counts days without gaps, its order and its injectivity |
| `Calendar.NextDate` | main.py:60-61 | the following calendar date comes after the date, is valid for every date but 9999-12-31, and no valid date lies strictly between the two |
| `Calendar.EpochDayNext` | main.py:60-61 | the date after a valid date, when valid, is exactly one epoch day later, across month and year ends |
| `Calendar.LeapDays` | main.py:60 | the divisible-by-4/100/400 quotient steps add exactly one day in a leap year and none otherwise |
| `Calendar.YearStep` | main.py:60 | the year after y starts one year length (365 or 366 days) later |
| `Calendar.ParseDate` | main.py:60 | a target date that strptime accepts is a valid calendar date |
| `Calendar.ParseFormatRoundTrip` | main.py:60 | every valid date written as zero-padded YYYY-MM-DD is read back as that date |
| `Calendar.ParseDateRejects` | main.py:60 | Feb 29 of a common year, month 13, trailing text, a two-digit year and year 0 make strptime raise |
| `Calendar.ParseDateAccepts` | main.py:60 | 2021-05-21, one-digit fields, a space-padded day and Feb 29 of a leap year are accepted with their values |
| `Ingest.SplitIntoChunks` | main.py:73 | the reader's chunks are never an empty list, concatenate to the file's rows and hold at most chunksize rows each |
| `Ingest.OpenCsv` | main.py:70-76 | a missing file yields the empty frame (no chunks); a present file yields chunks that concatenate to its rows |
| `Ingest.DateFilter` | main.py:59-62 | the filtered rows are no more than the input, each lies on the target day, and they are a subsequence of the input, in input order |
| `Ingest.DateFilterCount` | main.py:59-62 | each row is kept exactly as often as it occurs when ts / 86400 equals the target day, and otherwise dropped |
| `Ingest.DateFilterMembers` | main.py:61 | a row is kept iff it is in the input and ts / 86400 equals the target day |
| `Ingest.DateFilterIdempotent` | main.py:59-62 | filtering twice equals filtering once |
| `Ingest.DateFilterAppend` | main.py:78-86 | filtering a concatenation is concatenating the filtered parts |
| `Ingest.ProcessChunk` | main.py:78-81 | processing a chunk raises MalformedDate iff strptime rejects the date, and otherwise returns exactly the chunk's date filter: every row on that date, and only those |
| `Ingest.ProcessChunks` | main.py:85 | the list fails, with MalformedDate, iff there is a chunk and the date is malformed; otherwise it has one frame per chunk, the i-th being the i-th chunk's date filter |
| `Ingest.Concat` | main.py:86 | raises iff the list of frames is empty; what the rows are is stated by `ConcatSplit` and `ConcatAppend` |
| `Ingest.ConcatSplit` | main.py:73-86 | concatenating the reader's chunks of any positive size gives back exactly the file's rows |
| `Ingest.ConcatAppend` | main.py:86 | concatenating two non-empty lists of frames together is concatenating the two results |
| `Ingest.ProcessChunksSpec` | main.py:85 | a malformed date aborts a non-empty list of chunks; with a valid one, each chunk yields one frame and together they hold the filter of all rows |
| `Ingest.ConcatProcessed` | main.py:83-86 | no chunks means NothingToConcatenate; otherwise the result is MalformedDate or the date filter of all rows of all chunks |
| `Ingest.ReadChunked` | main.py:70-86 | for every positive chunk size: missing file means NothingToConcatenate, a bad date means MalformedDate, otherwise the result is the date filter of the whole file |
| `Ingest.ReadEvents` | main.py:83-86 | a missing file gives NothingToConcatenate and a malformed date MalformedDate, and these are the only failures; a successful read returns exactly the date filter of the whole file, a subsequence of it whose every timestamp lies on the target day |
| `Joins.Combine` | main.py:127 | the suffixed joined row splits back into the client row it was made from and, when the error ids match, into the server row |
| `Joins.CombineInjective` | main.py:127 | two matching pairs give the same joined row iff they are the same pair |
| `Joins.JoinRow` | main.py:127 | every row a client row contributes has that client's columns and the columns of a server row of the log |
| `Joins.InnerJoin` | main.py:127 | every output row consists of a client row and a server row of the inputs that share its error id |
| `Joins.JoinRowCount` | main.py:127 | one client row yields the row of a matching pair once per copy of that server row |
| `Joins.InnerJoinCount` | main.py:127 | every matching pair yields exactly one row: k client copies and m server copies give k * m joined copies |
| `Joins.InnerJoinComplete` | main.py:127 | every client/server pair with equal error id is in the join |
| `Joins.InnerJoinErrorIds` | main.py:127 | every joined row's error id occurs in both logs |
| `Joins.InnerJoinDisjoint` | main.py:127 | logs with disjoint error id sets join to nothing |
| `Joins.PlayerIds` | main.py:128 | one player id per joined row, and exactly the player ids of the joined rows |
| `Joins.Lookup` | main.py:129 | the lookup returns exactly the registry rows whose player id is in the collected ids |
| `Joins.LookupSubsequence` | main.py:129 | the looked-up rows keep registry order; the query has no ORDER BY, so this order is a modelling choice |
| `Joins.Attach` | main.py:130 | a joined row gets as many rows as its player has ban records, all for that row and each with the ban time of one of those records |
| `Joins.AttachCount` | main.py:130 | a joined row gets ban time t exactly as often as the registry holds a record of its player with time t: one row per record, carrying that record's time |
| `Joins.LeftJoinPairCount` | main.py:130 | for a player with ban records, a joined row appears with ban time t exactly (times joined) * (records of that player with time t) times |
| `Joins.Expand` | main.py:130 | a joined row becomes max(1, k) rows for k ban records, all for that row, and exactly one row with NaT when k = 0 |
| `Joins.LeftJoin` | main.py:130 | every enriched row is a joined row with NaT if its player has no ban record, and otherwise with the ban time of one of its records |
| `Joins.LeftJoinCount` | main.py:130 | each joined row survives the left join, once when unmatched and k times with k matches, times its own multiplicity |
| `Joins.LeftJoinUnbanned` | main.py:130 | a row whose player has no ban record appears with NaT exactly as often as it was joined |
| `Joins.AttachComplete` | main.py:130 | every ban record of the row's player yields an enriched row with its ban time |
| `Joins.LeftJoinComplete` | main.py:130 | the left join holds each joined row with each of its player's ban times, or with NaT when there is none |
| `Joins.AttachLookup` | main.py:129-130 | restricting the registry to a set of players that includes the row's player changes none of the row's matches |
| `Joins.LeftJoinLookup` | main.py:129-130 | left-joining with the registry restricted to a superset of the joined players equals left-joining with the whole registry |
| `Joins.LookupLossless` | main.py:128-130 | left-joining with the looked-up rows equals left-joining with the whole registry |
| `Processing.TooCloseToBan` | main.py:97 | the mask itself, with no contract of its own; `FilterDfCount` and `FilterDfBoundary` state which rows it selects |
| `Processing.FilterDf` | main.py:96-99 | every kept row has NaT or a server timestamp at or before ban_time - 86400 |
| `Processing.FilterDfCount` | main.py:96-99 | a row is kept, with its multiplicity, iff its ban time is NaT or timestamp_server <= ban_time - 86400 |
| `Processing.FilterDfBoundary` | main.py:97 | ban_time - 24h exactly is kept; one second later is dropped; at or after ban_time is dropped; NaT is kept |
| `Processing.FilterDfSubsequence` | main.py:98 | the kept rows keep their order |
| `Processing.FilterDfIdempotent` | main.py:96-99 | filtering twice equals filtering once |
| `Processing.TransformData` | main.py:111-119 | same number of rows in the same order; timestamp is the server timestamp, json_client and json_server the descriptions, and player_id, event_id and error_id are unchanged |
| `Processing.ToResult` | main.py:111-119 | one row's drop and rename, with no contract of its own; `TransformData` states its columns and `ToResultForgets` what it forgets |
| `Processing.ToResultForgets` | main.py:101-119 | two rows transform alike iff they agree on every column except timestamp_client and ban_time |
| `Processing.TransformMembers` | main.py:111-119 | a result row is present iff it is the transform of some input row |
| `Processing.Enrich` | main.py:127-130 | every enriched row comes from a client row and a server row of the two logs and carries NaT or the ban time of a registry record of its player |
| `Processing.EnrichWhole` | main.py:127-130 | the enrichment is the left join of the whole correlation join with the whole registry, so every joined row survives k times for k ban records and once with NaT for none |
| `Processing.Reconcile` | main.py:127-132 | never more rows than the enrichment, and none at all when the logs share no error id, in particular when one is empty |
| `Processing.Pipeline` | main.py:121-136 | a missing client log, then a malformed date, then a missing server log make the run fail; otherwise the result is the reconciliation of the two date-filtered logs |
| `Processing.ReconcileSound` | main.py:127-132 | every result row comes from a client and a server row with the same error id, with NaT or a ban time of its player at least 24 h after the server timestamp |
| `Processing.ReconcileComplete` | main.py:127-132 | every matching pair with such an admissible ban time reaches the result |
| `Processing.ReconcileKeepsUnbanned` | main.py:127-131 | the joined rows of a player with no ban record all survive the filter: k * m of them for k client and m server copies |
| `Scenarios.TargetDay` | main.py:27 | the target date 2021-05-21 parses to epoch day 18768 |
| `Scenarios.ReadOneRow` | main.py:59-62 | a row whose timestamp lies on the target day survives the date filter |
| `Scenarios.FarFutureBan` | main.py:125-132 | client (error 7, player 42, ts T), server (error 7, ts T + 5) and a ban at T + 1000000 give one result row with timestamp T + 5 |
| `Scenarios.BanWithinWindow` | main.py:125-132 | the same rows with a ban at T + 3605 give no result rows |
| `Scenarios.NoCommonErrorIds` | main.py:125-132 | target-day rows sharing no error id give a successful run with no rows |
| `Scenarios.MissingLog` | main.py:72-86 | a missing log makes the run fail in the concatenation |
| `Scenarios.BadDate` | main.py:60 | a malformed target date makes the run fail once a chunk is processed |

## Left out

- `SQLiteClient` (main.py:30-52): opening the connection, `create_table` with its printed and swallowed `sqlite3.Error`, and `to_sql` appending the rows and returning the count. These are I/O. The model's result is the sequence of rows handed to `push_data_from_dataframe`.
- The SQL text of the lookup (main.py:24, 129) is built by formatting a Python tuple. A single id renders as `(42,)`, which SQLite rejects, so the run raises when exactly one row is joined. Both `Scenarios.FarFutureBan` and `Scenarios.BanWithinWindow` join exactly one row, so neither holds of the program as written: there the run raises instead of returning one row or no rows. The model gives the lookup its intended `IN` membership semantics only.
- The order of the looked-up registry rows: the query (main.py:24, 129) has no ORDER BY, so SQLite promises none. The model takes registry order, which fixes the order of the left join's rows for a player with several records. Counts and membership do not depend on it.
- Registry columns other than `player_id` and `ban_time` (the query selects `*`) are not modelled. The model does not carry them into the result.
- CSV decoding and pandas dtype coercion (main.py:73): missing or non-numeric cells, an empty file (pandas raises `EmptyDataError`), a file whose first line is data rather than the header (pandas takes it as the header and the `timestamp` lookup at main.py:66 raises `KeyError`), and the parsing of `ban_time` strings by `parse_dates`. Rows arrive as typed records.
- Timestamps outside pandas' nanosecond range (roughly the years 1677 to 2262) make `pd.to_datetime` raise. The model converts every integer.
- `strptime` also accepts non-ASCII Unicode digits. The model reads ASCII digits only.
- `drop_columns` and `rename_columns` (main.py:101-109) are modelled at their one call site in `transform_data`, on the fixed column sets. Their general column-list and name-map forms are not modelled.
- The in-place mutation of frames (`inplace=True`, the reassigned `timestamp` column) is not modelled, because no caller sees the old state. Every stage returns a new sequence.
- `memory_profiler`, the start/finish/row-count prints and the module-level run (main.py:121-123, 134-140).
- The storage constraints of the destination table (`varchar(255)`, main.py:14-22).
