# Ratings client and retry wrapper — a Dafny model

This project models the client side of a small website ratings feature. Visitors
submit a 1–5 star rating with an optional comment. The client reads all ratings
from a hosted store, inserts new ones, and computes a summary: the total, the
average, the number of ratings from the current month, and a histogram of
rounded scores 1 to 5. Every store call runs inside a bounded retry wrapper.
The wrapper makes at most 3 attempts. It sleeps 1000 ms and retries only after a
failure whose message contains "Could not establish connection". It rethrows any
other failure at once. When the attempts run out, it rethrows the last error.

Modules: `Outcomes` and `Strings` are shared helpers, and the other four
follow the parts of `src/utils/api.ts`:

- `Outcomes` (outcomes.dfy): how a promise settles (`Resolved` / `Rejected`), the
  values that can be thrown, and the message a caught failure is reported with.
- `Strings` (strings.dfy): `includes`-style substring search, proved equal to
  "occurs at some position".
- `Retry` (retry.dfy): the wrapper. `op(i)` is how the operation settles on its
  `i`-th call. `WithRetry` is the source's counted loop. `RetryRun` is an
  independent reference definition: settle at the first attempt that is not a
  transient failure. The sleep is modelled as a count of waits.
- `Ratings` (ratings.dfy): the `Rating` row, the creation input, the response
  envelopes and `RatingSummary`.
- `Aggregation` (aggregation.dfy): the summary computation. `CountDistribution`
  is the source's in-place histogram loop over an array of five counters, proved
  equal to the `Distribution` function.
- `RatingsClient` (client.dfy): `FetchRatings`, `CreateRating` and
  `GetRatingSummary`, each composed with `RetryRun`.

Injected in place of the outside world:

- The store is a parameter. `select(i)` is its answer to the select on the
  wrapper's `i`-th attempt. `insert(i, row)` is its answer to inserting `row` on
  attempt `i`. A store answer that carries an error and a store call that
  throws are both a rejected outcome: the client rethrows the first, and both
  reach the same catch.
- Date parsing is a parameter `parse: string -> Option<LocalDate>`. It gives the
  epoch milliseconds and the local calendar month of a `created_at` string, and
  `None` for an invalid date. An invalid date gets a NaN timestamp and is never
  counted as this month's.
- The current month `now` is a parameter.

The `Rating` interface declares the derived `timestamp` as a string, but the
source stores the number of epoch milliseconds there. The model follows the source.

Ratings are exact rationals (`real`). `Math.round` is `floor(x + 0.5)`. The
average is the exact mean `sum / total`.

The model keeps the source's policy of always reporting a null error
(src/utils/api.ts:148, 196). A failed fetch therefore shows as the all-zero summary,
which looks the same as a store with no ratings (`SummaryMasksStoreFailure`).
The summary's check on the fetch's error uses JavaScript truthiness, so an
error message of `""` does not count as an error. The model follows the source
here. That branch then summarizes the empty row list, which gives the same
all-zero summary, so the result is unchanged.

## Model

| member | source | states |
|---|---|---|
| `Strings.IncludesIff` | src/utils/api.ts:32 | The substring scan used to classify failures succeeds exactly when the phrase occurs at some position of the message. |
| `Retry.PhraseAnywhereIsTransient` | src/utils/api.ts:32 | A message that contains the phrase, with any text before or after it, marks an `Error` as transient. |
| `Outcomes.Message` | src/utils/api.ts:87 | A caught `Error` is reported by its own message; any other thrown value by a fixed non-empty text. |
| `Retry.IsTransient` | src/utils/api.ts:32 | A failure is transient exactly when it is an `Error` and the phrase occurs at some position of its message. |
| `Retry.Settled` | src/utils/api.ts:27-37 | Gives the index of the first attempt that is not a transient failure, or 3 if there is none. Every attempt before it failed transiently. |
| `Retry.RetryRun` | src/utils/api.ts:25-40 | A run makes 1 to 3 attempts, sleeps at most once per attempt, and settles exactly as its last attempt did. Its full behaviour is given by `SettlesAt`, `ExhaustedRethrowsLast` and `RunBounds`. |
| `Retry.WithRetry` | src/utils/api.ts:22-40 | The counted loop gives exactly the run of the reference definition `RetryRun`: the same outcome, the same number of attempts and the same number of waits. |
| `Retry.SettlesAt` | src/utils/api.ts:27-36 | If attempt k is the first that is not a transient failure, the wrapper settles as attempt k did, after k+1 attempts and k waits. |
| `Retry.FirstSuccessReturned` | src/utils/api.ts:27-29 | The value of the first successful attempt is returned, and attempts stop there. |
| `Retry.PermanentFailureRethrown` | src/utils/api.ts:30-36 | A failure that is not transient is rethrown at once, with no wait and no further attempt, on the third attempt too. |
| `Retry.ExhaustedRethrowsLast` | src/utils/api.ts:27-39 | If all 3 attempts fail transiently, there are 3 attempts and 3 waits (one after each, the last included), and the third attempt's error is rethrown. |
| `Retry.SucceedsIff` | src/utils/api.ts:27-39 | The wrapper resolves with v if and only if some attempt among the first 3 resolves with v and every attempt before it failed transiently. |
| `Retry.RunBounds` | src/utils/api.ts:22-39 | A run makes 1 to 3 attempts. It has one wait per transient failure. It ends on a transient failure only after 3 attempts. It sleeps at most 3000 ms in total. |
| `Retry.OnlyMadeAttemptsMatter` | src/utils/api.ts:27-39 | Changing what the operation would do on calls the wrapper never makes does not change the run, so nothing is called after the settling attempt. |
| `Retry.NeverRejectingOpRunsOnce` | src/utils/api.ts:25-29 | An operation that resolves on its first call is called exactly once, with no wait. |
| `Aggregation.Distribution` | src/utils/api.ts:153-161 | Five buckets; bucket k is the number of ratings whose rounded score is k. |
| `Aggregation.Average` | src/utils/api.ts:163-166 | No ratings give average 0. For a non-empty list the average is the exact mean (`AverageIsMean`) and lies within the ratings' range (`AverageWithinScores`). |
| `Aggregation.Monthly` | src/utils/api.ts:168-176 | The monthly count is at most the total; `MonthlyAtMostTotal` states when it is equal. |
| `Aggregation.Round` | src/utils/api.ts:157 | The rounded score lies within one half of the rating, halves rounding up. |
| `Aggregation.CountDistribution` | src/utils/api.ts:153-161 | The loop that increments five counters, one per in-range rounded score, yields exactly the histogram `Distribution`. |
| `Aggregation.BucketIsMultiplicity` | src/utils/api.ts:156-161 | Bucket k holds exactly as many ratings as there are rounded scores equal to k (the multiplicity of k among the scores). |
| `Aggregation.BucketsAccount` | src/utils/api.ts:153-163 | The sum of the buckets plus the ratings whose rounded score is outside 1..5 equals the number of ratings. |
| `Aggregation.NoneOutOfRangeIff` | src/utils/api.ts:158 | No rating is dropped from the histogram if and only if every rounded score lies in 1..5. |
| `Aggregation.DistributionCoversTotal` | src/utils/api.ts:153-163 | The sum of the buckets is at most the total. It equals the total if and only if every rounded score lies in 1..5. |
| `Aggregation.MonthlyAtMostTotal` | src/utils/api.ts:168-176 | The monthly count is at most the total. It equals the total if and only if every rating's date is in the current local month and year. |
| `Aggregation.SumBounds` | src/utils/api.ts:165 | If every rating lies in [lo, hi], their sum lies between lo and hi times their number. |
| `Aggregation.AverageWithinScores` | src/utils/api.ts:163-166 | If every rating is between 1 and 5 and there is at least one, the average is between 1 and 5. |
| `Aggregation.AverageIsMean` | src/utils/api.ts:163-166 | The average times the number of ratings equals the sum of the ratings, so a non-empty average is the exact mean. |
| `Aggregation.Summarize` | src/utils/api.ts:152-183 | `total` is the number of ratings and `average` is their mean (`AverageIsMean`). `monthly` and the bucket sum are at most `total`. There are five buckets. No ratings gives the all-zero summary. |
| `Aggregation.SummarizeIgnoresTimestamps` | src/utils/api.ts:152-183 | The summary does not depend on the derived timestamps. |
| `RatingsClient.WithTimestamps` | src/utils/api.ts:76-79 | Keeps the rows in the same order and number. Each row is unchanged except that its timestamp is derived from its `created_at`. |
| `RatingsClient.FetchAttempt` | src/utils/api.ts:62-89 | One fetch attempt reports an error exactly when the store failed. Then its data is empty; otherwise it has one row per stored row. |
| `RatingsClient.FetchRatings` | src/utils/api.ts:60-91 | The fetch never rejects. Its error is set exactly when the store's first answer failed. `FetchRatingsContract` gives the full result. |
| `RatingsClient.FetchRatingsContract` | src/utils/api.ts:60-91 | The fetch never rejects and makes one attempt. Its error is set exactly when the store failed. On failure the data is empty and carries the failure's message. On success the data holds the store's rows in the same order and number, each with its timestamp attached. |
| `RatingsClient.CreateAttempt` | src/utils/api.ts:95-116 | One creation attempt reports an error exactly when the insert failed, and returns a row exactly when the insert succeeded. |
| `RatingsClient.CreateRating` | src/utils/api.ts:93-118 | The creation never rejects. Its error is set exactly when inserting the caller's rating and comment failed. `CreateRatingContract` gives the full result. |
| `RatingsClient.CreateRatingContract` | src/utils/api.ts:93-118 | The creation never rejects and makes one attempt. It inserts exactly the caller's rating and comment. With a stored row it returns that row and no error; with a failure it returns the empty placeholder and the failure's message. |
| `RatingsClient.SummaryAttempt` | src/utils/api.ts:135-197 | One summary attempt always reports a null error. A rejected fetch or a truthy fetch error gives the all-zero summary. The total never exceeds the number of fetched rows. |
| `RatingsClient.GetRatingSummary` | src/utils/api.ts:133-200 | The summary never rejects and its error is always null. `GetRatingSummaryContract` gives the full result. |
| `RatingsClient.GetRatingSummaryContract` | src/utils/api.ts:133-200 | The summary never rejects, makes one attempt and always reports a null error. When the store fails it is the all-zero summary, and otherwise it is the summary of exactly the rows the store returned. |
| `RatingsClient.SummaryMasksStoreFailure` | src/utils/api.ts:138-149 | When the store fails, the summary is total 0, average 0, monthly 0 with every bucket 0, and its error is null. |

## Left out

- `sendMessageToExtension` (src/utils/api.ts:42-58): a browser extension messaging callback that no modelled operation uses.
- The hosted store's query builder (src/utils/api.ts:64-68, 96-105): replaced by injected answers. Ordering by `created_at` descending is the store's job. The model shows that the client keeps whatever order the store returns.
- The real one-second sleep (src/utils/api.ts:33): modelled as a counted wait of `RetryDelay` ms.
- Logging and the environment constants `IS_DEV`, `IS_BROWSER` and `BASE_URL` (src/utils/api.ts:16-20): they do not affect any result.
- Floating point: the average is the exact quotient, without `toFixed(2)` rounding to two decimals. Ratings are exact rationals, so NaN or non-numeric rating values are not modelled.
- Date parsing and timezones: `Date` construction, `getTime`, `getMonth` and `getFullYear` are the injected `parse` function.
- `RatingsClient.GetRatingSummaryContract`: does not model the `!ratings` test at src/utils/api.ts:140. The fetch always returns a list, so the test is never true.
- `RatingsClient.GetRatingSummaryContract`: the catch at src/utils/api.ts:187-197 is modelled as the summary attempt's answer to a rejected fetch (`SummaryAttempt`). An exception raised inside the aggregation itself (a malformed row) is not modelled, because rows are well-typed here.
- The summary's `data` slot is declared nullable but is never null on any path. The model's type is a non-null summary.
- Creating a rating and then fetching it (the round trip) depends on what the store persists. The store is outside the model.
- Concurrency between calls: the operations share no in-process state, so the model has none.
- src/pages/api/ratings.ts: HTTP handlers that pass store results through with no logic of their own. They are not part of this model.
- src/utils/email.ts: one call to a third-party email SDK. It is not part of this model.
- astro.config.mjs: build and deploy configuration. It is not part of this model.
