# mastodon_exporter collection pipeline, modelled in Dafny

mastodon_exporter is a Prometheus exporter for a Mastodon instance. Each
time it is scraped, it queries the instance's PostgreSQL database for four
metric families, in this order:

1. the number of reports, resolved and unresolved (`num_reports`);
2. the time taken to resolve each report, as a cumulative histogram
   (`resolved_time_seconds`);
3. the number of local accounts by type (`num_accounts`);
4. the number of local posts (`num_posts`).

If a family's query succeeds, the scrape emits that family's samples. If it
fails, the scrape counts one error and moves on to the next family. The
scrape always ends by setting the `errors` gauge to the tally and emitting
it.

The model has five modules, one per file:

- `Metrics` (metrics.dfy) holds the metric families and the samples that
  are emitted: a gauge with label values and a value, or a histogram with
  count, sum and bucket map. `WellFormed` states the label arity that the
  metrics library checks when it builds a constant sample, and the
  cumulative-histogram invariant that no bucket exceeds the count. `SamplesOf` selects the samples of one family.
- `Store` (store.dfy) holds a query outcome, `Success(value) | Failure`,
  and the all-or-nothing collection of scanned rows.
- `Histogram` (histogram.dfy) holds the bucket bounds and the bucketing
  loop. The loop is `ResolvedMetricFromNums`, a method that updates a
  running sum and a count map. It is proved equal to a reference definition,
  `HistogramOf`, which is built from `CountLe`: the number of observations
  at or below a bound.
- `Families` (families.dfy) turns query results into the report, account
  and post gauges and the histogram sample. The account gauges are built by
  an appending loop, as in the source.
- `Exporter` (exporter.dfy) holds the class `MastodonExporter` with its
  `errors` gauge, and `Scrape`. `Scrape` runs the families step by step,
  increments a local error count and appends to the emitted sequence, which
  stands for the metric channel. It is proved equal to `ScrapeOutput`, and
  the lemmas about `ScrapeOutput` state the scrape's guarantees.

Each database query is an input of type `QueryResult`. For the
resolution-time query, the input is the sequence of rows, and each row
either scanned or did not. Durations are `real` seconds. Counts are
unbounded integers.

The code has four metric families, so the error tally ranges over 0..4.
`ReportSamplesByLabel` proves the fixed order `"true"` then `"false"` of the
report gauges, and also their labels as a set.

## Model

| member | source | states |
|---|---|---|
| `Store.CollectRows` | main.go:318-327 | the rows are collected exactly when every row scans; the result then has one value per row, in row order |
| `Histogram.BucketsStrictlyIncreasing` | main.go:30-40 | the nine bucket bounds, from 60 s to 604800 s, are strictly increasing |
| `Histogram.CountLe` | main.go:339-343 | the number of observations at or below a bound never exceeds the number of observations |
| `Histogram.ResolvedMetricFromNums` | main.go:332-352 | the loop's histogram equals the reference histogram: the count is the number of observations, the sum is their exact sum, and each reached bound maps to the number of observations at or below it |
| `Histogram.CountLeIsCardinality` | main.go:339-343 | the per-bound count is the size of the set of positions whose observation is at most the bound |
| `Histogram.CountLeMonotone` | main.go:339-343 | a larger bound counts at least as many observations |
| `Histogram.CountLeZero` | main.go:339-343 | a bound counts nothing exactly when every observation exceeds it |
| `Histogram.HistogramBuckets` | main.go:332-352 | for each configured bound: present in the map exactly when some observation is at or below it; its value is the number of such observations; count is len(numbers); sum is the sum |
| `Histogram.HistogramWellFormed` | main.go:339-351 | only configured bounds appear as keys, and no bucket exceeds the total count (the implicit +Inf bucket) |
| `Histogram.BucketsNonDecreasing` | main.go:30-40 | bucket counts never decrease along the list of bounds |
| `Histogram.AboveLargestBound` | main.go:337-348 | an observation above 604800 s raises the count by one and the sum by its value, and leaves every bucket unchanged |
| `Histogram.EmptyHistogram` | main.go:332-351 | no observations give count 0, sum 0 and an empty bucket map: a valid histogram |
| `Histogram.ThreeObservations` | main.go:332-352 | observations 45, 500 and 3700 s give buckets 1, 2, 2, 2, then 3 from 14400 s up, sum 4245 and count 3 |
| `Families.ReportSamplesByLabel` | main.go:181-192 | exactly two well-formed `num_reports` gauges: `"true"` first with the resolved count, and `"false"` with the unresolved count; as a set, the labels are {"true", "false"} |
| `Families.PostSamples` | main.go:221-225 | the post family is a single well-formed, unlabelled `num_posts` gauge carrying the post count |
| `Families.AccountSamplesInOrder` | main.go:283-292 | five `num_accounts` gauges, in the order unsuspended, bots, groups, people, suspended, each carrying its own count |
| `Families.GetNumAccounts` | main.go:242-293 | the appending loop succeeds exactly when the query does, and then returns the five account gauges |
| `Families.NoPartialHistogram` | main.go:307-330 | the histogram family succeeds exactly when the query succeeds and every row scans; it is then the histogram of all row values, with count equal to the number of rows |
| `Families.GetResolvedStats` | main.go:307-330 | the histogram family's result is the reference: a failure for a failed query or a bad row, and otherwise the histogram of the scanned durations |
| `Exporter.ErrorsCountFailedFamilies` | main.go:173-229 | the error tally equals the number of the four families whose query failed; it is at most 4, and it is 0 exactly when none failed |
| `Exporter.ErrorsGaugeLast` | main.go:228-229 | every scrape ends with the `errors` gauge carrying the tally, and that gauge is the only sample of its family |
| `Exporter.FamilyIsolation` | main.go:175-226 | per family, a scrape emits nothing if that family's query failed, and all of its samples if it succeeded |
| `Exporter.FailureIsolation` | main.go:175-226 | for two sets of query answers that differ only in one family's query, every other queried family emits the same samples |
| `Exporter.ReportsFailureLeavesOthers` | main.go:176-193 | a failed report query leaves the histogram, account and post samples as they were |
| `Exporter.PostGauge` | main.go:215-226 | a successful post query makes the scrape emit exactly one unlabelled `num_posts` gauge with the post count; a failed one makes it emit none |
| `Exporter.ScrapeOrder` | main.go:175-229 | samples come out in family order: reports, histogram, accounts, posts, errors |
| `Exporter.ScrapeWellFormed` | main.go:181-229 | every emitted sample has its family's kind and label arity |
| `Exporter.AllFamiliesFail` | main.go:173-229 | when all four queries fail, the only sample emitted is the `errors` gauge, with value 4 |
| `Exporter.AllFamiliesSucceed` | main.go:173-229 | when all four queries succeed, ten samples are emitted, the last being `errors` with value 0 |
| `Exporter.SendAll` | main.go:210-212 | the account samples are sent one at a time: the result is what was already sent, followed by all of them in order |
| `Exporter.MastodonExporter.constructor` | main.go:147-152 | a new exporter's `errors` gauge reads 0 |
| `Exporter.MastodonExporter.Scrape` | main.go:170-230 | afterwards the `errors` field holds the tally and the emitted sequence equals the reference scrape output |

## Left out

- Flag and environment parsing, logger setup, pool creation and ping, and the `os.Exit` paths (main.go:24-91). These are startup plumbing.
- The HTTP mux and the HTML index page (main.go:93-112). These are I/O.
- The SQL text and the pgx driver calls. Each query is an input that either succeeds with a value or fails. This includes `SUM` returning NULL over no rows, which makes the post query fail.
- The Prometheus library's internals. This covers `NewDesc`, `Describe`, the gauge object and the text exposition format. It also covers the panics of `MustNewConstMetric` and `MustNewConstHistogram`: the model proves instead that every emitted sample is well formed. The `+Inf` bucket is the histogram's count.
- `Collect` (main.go:166-168) is not modelled separately. It only calls `scrape` with a background context.
- Floating point. Durations and the sum are exact reals. Counts are unbounded integers, not casts to `float64` or `uint64`.
- Durations are not required to be non-negative. The bucketing handles any real, as the source does.
- Concurrent `Collect` calls that share the `errors` gauge object, and context cancellation. A scrape is modelled as one sequential run. The emitted `errors` sample carries the value this scrape set.
- Logging calls inside `scrape`. They are side effects only.
