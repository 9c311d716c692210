# gh-velocity sample store, in Dafny

This project models the core of gh-velocity. The tool polls a repository's
pull requests. It keeps an append-only history of observations ("samples")
of each pull request in SQLite and derives daily and weekly rollups from
them.

The model covers five pieces:

- **Entity values** (`Data`, data.dfy): `Status`, `Date`, `Sha`, `User`,
  `PullRequest`, `PrStats` and the flat `Sample` that ingestion builds.
  Every `u32` is the subset type `U32`.
- **Status text codec** (`StatusCodec`, status_codec.dfy): a status is
  written as `"Open"`, `"Closed <date>"` or `"Merged <date>"`. It is read
  back by dispatching on the first character and taking the date from
  offset 7.
- **Sample store** (`Store`, store.dfy): the `user`, `pr` and `sample`
  tables are fields of the class `Database`.
  - `user` and `pr` are maps keyed by primary key. They are written with
    INSERT OR IGNORE, so the first write wins.
  - `sample` is a sequence. Every insert appends one row.
  - `ReadPrs` is the join-and-order SELECT plus `PrReader::read`.
  - `OpenPrsPerDay` is the grouping query behind the daily rollup.
- **Ingestion** (`Ingest`, ingest.dfy): the saturating integer conversions,
  plus `record_sample`, which inserts the author, then the PR, then one
  sample, and stops at the first failure.
- **Refresh gate** (`Frontend`, frontend.dfy): the cached blob is kept
  unchanged if it is less than a day old. Otherwise it is replaced whole,
  or left intact if any step fails. The rollup shapes `Week`, `Day` and
  `Distribution` are in module `Rollup` of the same file.

Things outside the code become parameters:

- Time is a number of seconds passed by the caller.
- A database error is a `fault` flag: one per insert, one for the two
  SELECTs of `read_prs`, and one for the daily query in `Update`. Getting
  a connection is a `connection` result.
- `Status::from_opts` is a function parameter.
- The result of the unimplemented `weekly_stats` is a parameter.

Notes on what the code does, which the model follows:

- The code maps a negative input of `saturating_from` to `u32::MAX`, not
  to 0. Any failed conversion gives `u32::MAX`.
- `sample.pr` has no foreign key. A sample whose PR is missing is still
  appended; there is no referential error.
- `read_prs` ignores its range argument.
- `pr.number` has no unique constraint.
- Which of `closed_at`/`merged_at` takes precedence is decided inside
  `Status::from_opts`. That function is not part of this model, so no
  precedence is asserted.

## Model

| member | source | states |
|---|---|---|
| Data.DateRoundTrip | src/data.rs:49-57 | `Date::new(s).param_str() == s`, and a date is rebuilt from its own text |
| Data.DateEqualityIsTextual | src/data.rs:44-47 | two dates are equal exactly when their texts are equal |
| Data.StatusDate | src/data.rs:37-42 | a status is exactly one tag; only Closed and Merged carry a date |
| StatusCodec.Encode | src/db.rs:204-220 | Open is written "Open", Closed(d) is "Closed " followed by d, Merged(d) is "Merged " followed by d; the text is always readable |
| StatusCodec.Decode | src/db.rs:222-235 | non-text cells and texts whose first character is not O, C or M give `InvalidType`; O gives Open; C and M give Closed/Merged with the date from offset 7; requires non-empty text and 7 characters for C and M, as the slices do |
| StatusCodec.WellFormedTextDecodes | src/db.rs:224-233 | a text reads back without error exactly when it is well formed |
| StatusCodec.DecodeEncode | src/db.rs:204-235 | decoding the encoding of any status returns that status |
| StatusCodec.EncodeInjective | src/db.rs:204-219 | two statuses have the same text exactly when they are equal |
| StatusCodec.DecodeIgnoresRestAfterO | src/db.rs:225-226 | any text starting with 'O' reads as Open |
| StatusCodec.DecodeThenEncodeNotIdentity | src/db.rs:225-228 | "Oops" reads as Open and is written back as "Open", so decoding then encoding is not the identity |
| StatusCodec.DecodeRejects | src/db.rs:224-233 | non-text cells and texts starting with another character are rejected with `InvalidType` |
| Store.InsertOrIgnore | src/db.rs:91-101 | INSERT OR IGNORE on a primary key: the key is present afterwards with its old row if it had one, else the new row; other rows are unchanged |
| Store.InsertOrIgnoreFirstWins | src/db.rs:112-113 | a second insert with the same key changes nothing, whatever its row |
| Store.InsertOrIgnoreSize | src/db.rs:94 | an insert adds one row for a new key and none for an existing one |
| Store.Database.constructor | src/db.rs:14-22 | a new database has three empty tables |
| Store.Database.InsertUser | src/db.rs:128-137 | the user table becomes InsertOrIgnore of the user under its id; other tables unchanged; a database error changes nothing and is returned |
| Store.Database.InsertPr | src/db.rs:112-127 | the pr table becomes InsertOrIgnore of the PR under its id, with the author column holding the author's id; other tables unchanged |
| Store.Database.InsertSample | src/db.rs:138-176 | exactly one row is appended, holding the PR's id and the encoded status; users and PRs unchanged |
| Store.InsertByNumber | src/db.rs:244-248 | inserting a join row into a list sorted by number keeps it sorted and adds exactly that row |
| Store.QueryPrs | src/db.rs:244-249 | the join yields every PR whose author is in the user table, exactly once, sorted by number ascending |
| Store.SamplesOf | src/db.rs:250-254 | a PR's samples are exactly the sample rows whose `pr` column is its id |
| Store.SamplesOfAppend | src/db.rs:250-254 | appending a sample row extends the sample list of its own PR by that row and leaves every other PR's list unchanged |
| Store.SampleFromQuery | src/db.rs:342-354 | a sample row reads back exactly when its status text is well formed; otherwise the error is `InvalidType`; on success the status is the decoded text and the time, counters and first commit are the row's columns |
| Store.SampleRoundTrip | src/db.rs:138-164 | a sample written by the sample insert reads back with the same time, status, counters and first commit; its `pr` column is the PR's id |
| Store.DecodeAll | src/db.rs:266-272 | collecting the samples succeeds exactly when every status is well formed, and then reads each row in order |
| Store.ReadRow | src/db.rs:266-274 | one join row reads back exactly when all its PR's samples decode, and then gives the PR with its author's name and url and those samples |
| Store.ReadJoined | src/db.rs:265-278 | the loop succeeds exactly when every join row reads back, and then gives one PR per row in order |
| Store.ReadPrs | src/db.rs:242-279 | a failing SELECT gives a database error; otherwise the result holds one PR per row of the join, in number order, each with its author's username and url and its decoded samples; it fails exactly when some sample of a returned PR has a malformed status, so it never fails on a store written only by these inserts; it needs only the samples of joined PRs to be readable; the range is unused |
| Store.PullRequestFromQuery | src/db.rs:315-320 | reads the PR's own columns with the default author and no samples; setting the author from the row gives the PR that `read` returns with no samples |
| Store.UserFromQuery | src/db.rs:328 | reads the username with an empty url; setting the url from the row gives the author that `read` returns |
| Store.PrReadBack | src/db.rs:266-276 | a PR stored with its author reads back with its own fields and the author's name and url |
| Store.InsertTwoPrs | src/db.rs:420-436 | inserting two PRs by the same author, each with the author, leaves two PR rows and one user row |
| Store.InsertAndReadScenario | src/db.rs:438-442 | after the test's inserts, `read_prs` returns exactly the two PRs, in number order, with the author's name and url and no samples |
| Store.DatePart | src/db.rs:36-40 | `date(sample.time)` is the first ten characters of the time text, a prefix of it |
| Store.Tally | src/db.rs:36-40 | counting one more Open sample on a day raises that day's count by one, adds the day at its place in date order if new, and keeps dates strictly ascending |
| Store.OpenPrsPerDay | src/db.rs:34-51 | days are in strictly ascending date order, so none is reported twice, and every reported count is positive |
| Store.OpenPrsPerDayCounts | src/db.rs:35-40 | the count reported for any day equals the number of samples with status "Open" whose time falls on that day |
| Store.OpenPrsPerDayCorrect | src/db.rs:34-51 | days come in strictly ascending date order; each reported day has the number of Open samples on it, which is never zero; every day with an Open sample is reported; no day is reported twice |
| Store.OpenSamplesOutOfOrder | src/db.rs:36-40 | two Open samples whose second is on an earlier day give the earlier day first |
| Store.EarlierDayFirst | src/db.rs:36-40 | an Open sample of 2019-05-15 stored before one of 2019-05-14 gives 2019-05-14 first, then 2019-05-15 |
| Store.OpenPrsPerDayIgnoresClosed | src/db.rs:38 | a Closed or Merged sample never changes the daily counts |
| Store.OpenTextIsOpen | src/db.rs:38 | the stored text equals "Open" exactly when the status is Open |
| Store.TwoOpenSamplesOneDay | src/db.rs:35-48 | two Open samples and one Merged sample on one day give that day with count 2 |
| Ingest.SaturatingFrom | src/github.rs:98-104 | a value in [0, u32::MAX] is kept; anything else, negatives included, becomes u32::MAX |
| Ingest.SaturatingFromOpt | src/github.rs:106-113 | None gives 0; Some(v) gives the saturated v |
| Ingest.SaturationExamples | src/github.rs:119-126 | 42 gives 42; u32::MAX+500 gives u32::MAX; Some(42) gives 42; None gives 0 |
| Ingest.FirstSha | src/github.rs:47-50 | the first commit's sha, or "" when the PR has no commits |
| Ingest.SnapshotMapping | src/github.rs:64-92 | the PR's id and number saturate; a missing body becomes ""; the sample time is `updated_at`; the PR's creation date is `created_at`; review comments are the saturated count; the sample owns the PR, which owns the author |
| Ingest.RecordSample | src/github.rs:57-96 | inserts author, then PR, then one sample; each table changes only if its own insert and all earlier ones succeeded; on success the new sample's PR and the author are both stored |
| Ingest.RecordedSampleReadsBack | src/github.rs:82-93 | the recorded sample becomes the last sample of its PR and reads back unchanged; other PRs' samples are untouched |
| Frontend.Refreshed | src/frontend.rs:29-43 | succeeds when the blob is fresh or every step succeeds; a stale blob that succeeds is replaced by a complete new one stamped `now` and built from both rollups; on failure the old blob is kept and the first error returned |
| Frontend.DefaultBlob | src/frontend.rs:54-61 | a default blob has no weeks and no days, is fresh for the next 86400 s and stale after that |
| Frontend.FreshUpdateIsNoop | src/frontend.rs:31-34 | while the blob is fresh (less than 86400 s since the last refresh, or a clock behind it), `update` succeeds and changes nothing |
| Frontend.StaleUpdateReplaces | src/frontend.rs:36-42 | a stale blob refreshed successfully is replaced whole, stamped with the refresh time |
| Frontend.SecondUpdateIsNoop | src/frontend.rs:31-41 | within a day after a refresh that replaced the blob, a second `update` is a no-op whatever the store answers |
| Frontend.Blob.constructor | src/frontend.rs:21-26 | a new blob has no weeks, no days, and its construction time as `last_update` |
| Frontend.Blob.Update | src/frontend.rs:29-43 | the blob and the result are those of `Refreshed`, where the days come from `OpenPrsPerDay` on the sample table |

## Left out

- Database connections, `init` and the CREATE TABLE statements are not modelled. The tables start empty in `Database`'s constructor. `ConnectionProvider` and the test provider are also left out.
- SQLite errors other than a malformed status are modelled only where a `fault` flag or `connection` result stands for them: the three inserts, the two SELECTs of `read_prs` (one flag for both), getting the connection, and the daily query in `Update`. The model does not say why a statement fails.
- Store.ReadPrs: a SELECT error is reported before any decoding; when in the iteration it happens, and which of it and a malformed status comes first, is not modelled.
- Column conversions other than `Status` are not modelled: `u32` out of range and Date/Sha from a non-text cell. Every cell is written by these inserts with the right type.
- StatusCodec.Decode: the text is a sequence of characters. Rust's `s[0..1]` and `s[7..]` panic when the offset falls inside a multi-byte character. That panic is not modelled.
- Store.DatePart: SQLite's `date()` is modelled as the first ten characters of the time text. Its parsing, time-zone handling and NULL on invalid input are not modelled. Days are calendar days of the stored text, with no UTC or local conversion.
- Rollup.Day: `openPrs` is unbounded. A count above `u32::MAX` would fail the conversion to `u32`; that failure is not modelled.
- Store.OpenPrsPerDay: as written, the query puts ORDER BY before GROUP BY, which SQLite rejects. The model gives the intended result: one group per day, in ascending date order. Dates compare by character code, which matches SQLite's byte comparison for the ASCII timestamps stored.
- Store.ReadPrs: the sample SELECT leaves out `deletions`, which `Sample::from_query` then reads. The model reads it, as intended.
- Store.SamplesOf: the sample SELECT has no ORDER BY. The model returns rows in insertion order; no time order is promised.
- Store.QueryPrs: PRs with equal numbers may come in any order. Only the order by number is promised.
- The `table!` macro reads flat sample fields that `data::Sample` keeps in `stats`. The model uses one flat `Sample`. `PrStats.reviewers` is never written or stored.
- `weekly_stats` is `unimplemented!()` and is a parameter of `Update`. No rule for weeks or `Distribution` is modelled.
- Ingest.FirstSha: only the choice of the sha is modelled; fetching the commits is not. `RecordSample` receives that choice as its `firstSha` argument.
- `Status::from_opts` is not part of this model; it is a parameter of `RecordSample`.
- The network and async code are not modelled: `update_from_repo`, `open_pull_requests`, the fetching part of `record_data`, and hubcaps.
- Process-level code is not modelled: the `main` loop, sleep, the CLI, `GhvError` conversions, and the constants in config.rs.
- The mutex around the blob is not modelled, nor its poisoning. `Instant` is a number of seconds, and `elapsed` is clamped at zero.
- Frontend.Blob.Update: time spent inside `update` is not modelled. `last_update` of the new blob is the time the call began.
- Serde serialisation is not modelled.
