# Verified models of the rate limiter, the metrics pipeline, the redactor, the heartbeat keeper and global keys

This project models the stateful and arithmetic parts of the backend and the workers and proves what
they keep over whole runs. `dafny verify dfyconfig.toml` checks all of it.

## What is modelled

**Rate limiter** (`RedisZset`, `RateLimitProtocol`, `RateLimitSafety`, `RateLimitTightness`,
`ReleaseMismatch`, `RateLimiter`, `RateLimitFacts`). Every Redis command of an acquire, a release or a usage query is one step of a
transition system over any number of calls and organizations, with a clock, a leased lock per
organization, a ZSET per organization, one unlocked global ZSET, cleanup by score, expiry of whole keys
and exits that fail open. The safety theorems are about all interleavings. The class issues the same
steps, with whatever others do between any two of its commands and any of them raising, so its history is a
run; each method is also given by what it does to both ZSETs when nothing disturbs it. `RateLimitFacts` says
the same of runs and calls in terms of actions, clock, locks and scores alone.

**Metrics aggregation** (`AggregationLock`, `AggregationOverlap`, `Calendar`, `MetricQueries`, `MetricRollup`,
`MetricAggregation`, `AggregationHistory`, `AggregationReruns`, `AggregationSkips`, with `CalendarFacts` and
`AggregationFacts`). The self-healing lock is
a second transition system, one step per cache command. The calendar is the proleptic Gregorian one, in
microseconds of UTC from 1 January of year 1. A source query is a group-by over samples with inclusive
bounds; the dictionaries and the three tables are maps that loops fill and overwrite; any query may
raise at any of its two stages and any of the three writes may fail. `Gained`, `TierRun` and `Ran` say
what a run does to every key without mentioning how it is computed; `AggregationFacts` counts and sums the
source rows directly, and `CalendarFacts` fixes dates, month lengths, windows and units by their numbers.

**Bucket cache and in-memory aggregation** (`TimeBuckets`, `BucketKeys`, `BucketCache`, `HourlyFetch`,
`SharedBuckets`, `MetricSeries`, `MetricSummary`, `DeploymentUsage`, with `Sorting` and `GroupBy`). Time goes
on and the table changes between and inside fetches; entries may vanish, be garbled or fail to be written, and
fetches may filter by different projects and tags.

**Redactor** (`SecretPatterns`, `SecretMatching`, `BearerSafety`, `UrlSafety`, `MarkedSecrets`,
`KeyValueSafety`, `Redactor`, `RedactTwice`, `RedactStructure`, `NamedValues`, `TokensAndUrls`,
`SecretNames`). The three patterns are explicit leftmost-greedy matchers, tied to declarative spans (`BearerSpan`, `KeyValueSpan`, `UrlSpan`) that say what a match is.
A pass is a substitution over the whole text that sees the character before each position. `NamedValues`,
`TokensAndUrls` and `SecretNames` write the names and the characters out again and say what comes back.

**Heartbeat keeper** (`HeartbeatKeeper`) and **global deployment keys** (`KeyScope`, `GlobalKeys`) are
a transition system and a history of operations, each with the class that carries the steps out.

## Where the code and what is said about it part

- The comment at backend/api_v2/rate_limiter.py:155-158 says that the global limit may be exceeded by one
  or two per cent. The bound is the limit plus K - 1, where K is the largest number of calls that were in
  their lock sections at once, whatever the limit is (`GlobalOvershoot`); it is reached for every positive limit
  and every K (`OvershootIsReached`), so the limit holds if and only if K is at most 1 (`GlobalLimitIffAlone`).
- An organization's limit is not enforced by the lock alone, whose lease may run out. Its ZSET holds at most
  the largest limit an admission was checked against plus K - 1 entries, K counting the calls of that
  organization in their sections at once (`OrgOvershoot`); this is reached for every limit and every K (`OrgOvershootIsReached`), so the limit
  holds if and only if K is at most 1 (`OrgLimitIffAlone`). That no holder outlives its lease is one way to
  have K at most 1 (`TimelyCallsExclude`).
- `release_slot` takes an organization identifier, but backend/api_v2/api_deployment_views.py:145,
  backend/api_v2/deployment_helper.py:296 and 355, and backend/mcp_server/tools/execution.py:224 and 229
  hand it an `Organization`, so the key does not match. `MismatchedRelease` says when such a release breaks
  the agreement of the two ZSETs, `MismatchedReleaseHappens` reaches one, and after any such release the
  organization goes on being charged while the entry is young (`MismatchedReleaseCharges`).
- The aggregation lock is there to prevent overlapping runs, but a reclaim is a get, a delete and an add,
  and a second worker may come between (`TakeoverRace`). Overlap is excluded if and only if no aggregation may
  last for the timeout after its stamp, none may add its entry more than one tick of the clock after its stamp
  (or last longer than that), and the entry found at first cannot look abandoned while it is there
  (`OverlapIsExcludedIff`). A tick is a microsecond here; a finer clock leaves less, so in effect any delay
  between the stamp and the add lets the race in after a crash.
- `hourly_start` is not truncated, so a run a day later overwrites the hour in which its window begins with that
  hour's tail. A stored hour is right if and only if the last run that wrote it lost nothing in front of its
  window and nothing was added since (`HourIsRightIff`); an hour once cut never recovers
  (`CutHourNeverRecovers`); `StraddledHourDrops` is a history on the clock.
- The pre-filter of active organizations looks at workflow executions only, and its comment says that the
  months of dormant organizations were already written. Skipping an organization without samples since
  `daily_start` is harmless if and only if, metric by metric, each sample in the monthly window was seen by
  the last run that delivered the metric or is worth nothing on a day that run saw (`SkippingIsHarmlessIff`).
  If an earlier run caught up with it, it is (`SkippingIsHarmless`). If no run has delivered it, it is only
  when it has no row in the monthly window at all, whatever is skipped (`SkippingUnwrittenIff`), so an
  organization with usage rows alone loses them all (`SkippingLosesUsage`). For every organization after every
  history the exact condition is `SkippingAllIsRightIff`.
- The bucket key leaves out the project and the tag that the query filters on. Two fetches may share an entry
  if and only if they have the same filter (`SharingIsRightIff`); for one table, if and only if each row of
  the bucket passes both filters or neither (`SharedBucketIsRightIff`); `OtherProjectsRow` is an instance.
- The docstring of `_build_bucket_key` begins keys with `metrics`; the code uses `CACHE_PREFIX`, and so
  does the model.
- The names of the key pattern and the secret field names are said to share one vocabulary
  (backend/mcp_server/sanitize.py:63-68 and 151-154). The single words do (`OneWordName`), and so does every
  compound whose words are apart; a compound run together, such as `secretkey` or `accesskey`, is masked in
  free text and, `apikey` excepted, not as a field name (`TwoWordsShared`, `ThreeWordsShared`).
- The anchor list is meant to lose no match, but `access-key` and `accesskey` match the second pattern and
  contain no anchor. With those two added the early return is sound (`PrefilterSound`); as written it
  is right exactly for the texts without a match of the second pattern (`PrefilterExact`), and
  `MissedSpelling` names one that is not.
- Redacting twice is not redacting once: the value class excludes `]` but admits `[`, so the second pass adds
  a `]` behind a marker it takes for a value. The pass is idempotent exactly on the texts it does not change
  (`SecondPassIdempotentIff`). A second redaction changes nothing if and only if the text now shows no anchor
  or every named value in it is the secret of a URL credential, where the third pass takes the bracket away
  again (`RedactedTwiceIff`).

## Model

| member | source | states |
|---|---|---|
| `RateLimitSafety.GlobalOvershoot` | backend/api_v2/rate_limiter.py:223-275 | In every run in which at most K calls are in their lock sections at once, the entries of the global ZSET plus the calls that are past the global check and have not added never exceed the limit plus K - 1; so neither do the entries |
| `RateLimitSafety.GlobalOvershootByOrgs` | backend/api_v2/rate_limiter.py:216-275 | With no holder outliving its lease, the overshoot is at most the number of organizations that call, less one |
| `RateLimitSafety.GlobalBudgetStep` | backend/api_v2/rate_limiter.py:223-275 | The budget of entries and pending additions is kept by every step that any call, release, expiry or clock tick can make |
| `RateLimitSafety.StepPending` | backend/api_v2/rate_limiter.py:252-275 | A call becomes pending only by passing the global check below the limit, and stops being pending by adding |
| `RateLimitSafety.OrgOvershoot` | backend/api_v2/rate_limiter.py:216-275 | In every run in which at most K calls of an organization are in their sections at once, leases or not, the entries of its ZSET plus its calls that may still add never exceed a bound on every limit an admission has read plus K - 1 |
| `RateLimitSafety.OrgBudgetStep` | backend/api_v2/rate_limiter.py:228-275 | That budget is kept by every step that any call, release, expiry or clock tick can make |
| `RateLimitSafety.StepTakers` | backend/api_v2/rate_limiter.py:228-275 | A call becomes one that may still add only by counting fewer entries than the bound, and stops being one by adding |
| `RateLimitSafety.TimelyCallsExclude` | backend/api_v2/rate_limiter.py:197-221 | As long as no holder outlives its lease, at most one call of each organization is in its section |
| `RateLimitSafety.OrgLimitHolds` | backend/api_v2/rate_limiter.py:216-292 | So with timely holders an organization's ZSET never holds more entries than a bound on every limit an admission of that organization has read |
| `RateLimitSafety.StepOrgSize` | backend/api_v2/rate_limiter.py:223-285 | Only an addition makes an organization's ZSET grow, by one at most; exits that fail open and releases never do |
| `RateLimitSafety.StepGlobalSize` | backend/api_v2/rate_limiter.py:223-285 | Likewise for the global ZSET |
| `RateLimitSafety.ZsetsAgree` | backend/api_v2/rate_limiter.py:261-275 | In every run with releases by the acquiring organization, an execution younger than the time to live is in its organization's ZSET if and only if it is in the global one |
| `RateLimitSafety.YoungSlotSurvives` | backend/api_v2/rate_limiter.py:223-275 | No cleanup, whoever's cutoff it uses, and no expiry of a key drops a young entry from either ZSET; an addition puts it in both |
| `RateLimitSafety.MismatchedRelease` | backend/api_v2/rate_limiter.py:344-363 | A release under a key that is not the acquiring organization's takes the entry from the global ZSET only; the two agree afterwards if and only if there was no young slot |
| `ReleaseMismatch.MismatchedReleaseCharges` | backend/api_v2/rate_limiter.py:344-363 | In every run, after such a release the organization's ZSET keeps the entry and the global one lacks it for as long as the entry is young and nobody releases it under the right key |
| `ReleaseMismatch.MismatchedReleaseHappens` | backend/api_v2/rate_limiter.py:344-363 | A run with one admitted call and one such release ends with the two ZSETs in disagreement |
| `ReleaseMismatch.ChargedStep` | backend/api_v2/rate_limiter.py:223-285 | No other step of anybody ends that charge |
| `RateLimitTightness.OvershootIsReached` | backend/api_v2/rate_limiter.py:150-158 | For every limit and every K a run with at most K calls in their sections reaches exactly limit plus K - 1 global entries |
| `RateLimitTightness.GlobalLimitIffAlone` | backend/api_v2/rate_limiter.py:150-158 | The global limit holds in all runs with at most K calls in their sections if and only if K is at most 1 |
| `RateLimitTightness.PauseMany` | backend/api_v2/rate_limiter.py:183-221 | Any number of calls of one organization can sleep past both checks, each until its lease has run out |
| `RateLimitTightness.OrgOvershootIsReached` | backend/api_v2/rate_limiter.py:216-275 | For every organization limit that the global one admits and every K a run with at most K calls in their sections reaches exactly limit plus K - 1 entries |
| `RateLimitTightness.OrgLimitIffAlone` | backend/api_v2/rate_limiter.py:216-275 | An organization's limit holds in all runs with at most K of its calls in their sections if and only if K is at most 1 |
| `RateLimiter.APIDeploymentRateLimiter.CheckAndAcquire` | backend/api_v2/rate_limiter.py:150-292 | Whatever others do between its commands and whichever command raises, the call fails open only if the lock was busy when it gave up or something raised, an admission was tracked in both ZSETs, and every count it reports was true while it ran; undisturbed, the counts of fresh entries decide, organization first, and an admitted execution is in both ZSETs under its start time, a refused one in neither, with the lock free, stale entries gone and other organizations untouched |
| `RateLimiter.APIDeploymentRateLimiter.Command` | backend/api_v2/rate_limiter.py:223-275 | One command under the lock comes after whatever others did, leaves the call to leave if it raises, and does not see its own call changed by others |
| `RateLimiter.APIDeploymentRateLimiter.TakeLock` | backend/api_v2/rate_limiter.py:171-221 | After waiting, the lock is taken only if it was free, and given up only if it was busy or the attempt raised; undisturbed, it is taken if and only if it is free, with the timestamp and the cutoff read before it |
| `RateLimiter.APIDeploymentRateLimiter.Clean` | backend/api_v2/rate_limiter.py:223-225 | The call has cleaned both ZSETs unless a command raised; undisturbed, both have lost their stale entries and nothing else has changed |
| `RateLimiter.APIDeploymentRateLimiter.CleanAndCount` | backend/api_v2/rate_limiter.py:223-228 | The count is the size of the organization's ZSET at some moment of the call; undisturbed, that of its fresh entries |
| `RateLimiter.APIDeploymentRateLimiter.CompareGlobal` | backend/api_v2/rate_limiter.py:241-258 | The global verdict is borne out by a size of the global ZSET seen during the call |
| `RateLimiter.APIDeploymentRateLimiter.Compare` | backend/api_v2/rate_limiter.py:228-258 | The organization's limit is compared first, against the count, and only then the global one |
| `RateLimiter.APIDeploymentRateLimiter.CheckLimits` | backend/api_v2/rate_limiter.py:223-258 | Amid others every verdict is borne out by counts seen during the call; undisturbed, both counts are of fresh entries and only the two ZSETs lose stale ones |
| `RateLimiter.APIDeploymentRateLimiter.AddIfAdmitted` | backend/api_v2/rate_limiter.py:260-285 | An admitted call is tracked in both ZSETs unless the addition raises, and a refused one in neither |
| `RateLimiter.APIDeploymentRateLimiter.Leave` | backend/api_v2/rate_limiter.py:287-292 | The call ends, and releases the lock if and only if it still is its own |
| `RateLimiter.APIDeploymentRateLimiter.Settle` | backend/api_v2/rate_limiter.py:260-292 | An admission is tracked in both ZSETs unless the addition raises, and the call is finished either way; undisturbed, a refusal is tracked in neither and the lock is free |
| `RateLimiter.APIDeploymentRateLimiter.RunLocked` | backend/api_v2/rate_limiter.py:223-292 | The part under the lock as a whole, amid others and undisturbed |
| `RateLimiter.APIDeploymentRateLimiter.ReleaseExecution` | backend/api_v2/rate_limiter.py:344-363 | Removes the execution from the named key and the global ZSET, and nothing else |
| `RateLimiter.APIDeploymentRateLimiter.GetCurrentUsage` | backend/api_v2/rate_limiter.py:106-147 | The two counts are the numbers of entries younger than the time to live |
| `RateLimitFacts.SlotsAgree` | backend/api_v2/rate_limiter.py:260-275 | In every run that releases under the organization of the call, an execution that called less than the time to live ago is in both ZSETs or in neither, and every score is the time of the call |
| `RateLimitFacts.LimitIsKept` | backend/api_v2/rate_limiter.py:223-245 | If no limit that is read exceeds m and nobody overstays the lease, no organization ever has more than m entries |
| `RateLimitFacts.LockIsKept` | backend/api_v2/rate_limiter.py:206-219 | The lock is its taker's for the whole lease, whatever others do and even if the taker crashes, until it releases it |
| `RateLimitFacts.LocksAreApart` | backend/api_v2/rate_limiter.py:206-219 | Two calls of one organization take the lock at least the lease apart, unless the first released it in between |
| `RateLimitFacts.CallKeepsItsTime` | backend/api_v2/rate_limiter.py:187-193 | The stamp of a call is the time it began, for ever |
| `RateLimitFacts.DecidedIs` | backend/api_v2/rate_limiter.py:223-285 | Undisturbed, a call counts the scores above its cutoff, the organization first, is admitted if and only if both counts are below their limits, and leaves exactly what it counted and, if admitted, itself under its stamp |
| `RateLimitFacts.KeysExpireTogether` | backend/api_v2/rate_limiter.py:266-275 | After an addition neither whole key may expire before the time to live is over, and both may once it is |
| `AggregationLock.MutualExclusion` | backend/dashboard_metrics/tasks.py:211-251 | If every run ends within the timeout of its stamp, stored values are timestamps and no add falls into another worker's reclaim, no two aggregations ever overlap |
| `AggregationLock.StepKeepsInv` | backend/dashboard_metrics/tasks.py:211-251 | The invariant behind it survives every command of every worker, a kill at any point and the passing of time |
| `AggregationLock.HealsAfterTimeout` | backend/dashboard_metrics/tasks.py:211-251 | After any run, crashes included, an uncontended attempt at least the timeout later acquires |
| `AggregationOverlap.OverlapIsExcludedIff` | backend/dashboard_metrics/tasks.py:207-251 | From any cache entry, no run of workers that add at most lag after their stamps and aggregate for at most span after them ever has two aggregations at once if and only if span is below the timeout, lag or span is at most one tick, and the entry cannot look abandoned while it is live |
| `AggregationOverlap.PacedRunsExclude` | backend/dashboard_metrics/tasks.py:207-251 | With such paces no worker ever reclaims, whatever crashes, so aggregations exclude each other |
| `AggregationOverlap.NobodyReclaimsStep` | backend/dashboard_metrics/tasks.py:220-251 | Every command of every worker keeps it that no live entry can look abandoned |
| `AggregationOverlap.TakeoverRace` | backend/dashboard_metrics/tasks.py:220-251 | Whatever the paces, wherever a live entry looks abandoned, two workers reach overlapping aggregations |
| `AggregationOverlap.TooOldAndStillThere` | backend/dashboard_metrics/tasks.py:220-237 | Such an entry comes about if an add may come two ticks after its stamp: the worker is killed, and its stamp reaches the timeout before its entry expires |
| `AggregationOverlap.LongRunIsJoined` | backend/dashboard_metrics/tasks.py:220-251 | An aggregation that may last for the timeout is joined by another on a free entry |
| `AggregationOverlap.ReclaimableEntryOverlaps` | backend/dashboard_metrics/tasks.py:233-251 | A corrupted or too late entry that is live at first lets two workers in, whatever their paces |
| `AggregationOverlap.ExclusionNeedsUndisturbed` | backend/dashboard_metrics/tasks.py:211-251 | Timely runs and readable stamps alone do not exclude overlap |
| `AggregationOverlap.ExclusionNeedsTimely` | backend/dashboard_metrics/tasks.py:211-251 | Nor do undisturbed reclaims without timely runs |
| `AggregationLock.AggregationTask.TryAdd` | backend/dashboard_metrics/tasks.py:223-245 | Amid others an add succeeds only on a free entry, which then carries the stamp taken at the start, and fails only on a live one |
| `AggregationLock.AggregationTask.LookAgain` | backend/dashboard_metrics/tasks.py:226-251 | A worker that found the entry live gets it only by an add on a free entry, and otherwise has seen it live again |
| `AggregationLock.AggregationTask.AcquireAggregationLock` | backend/dashboard_metrics/tasks.py:211-251 | Whatever other workers do between its commands, an attempt acquires only by finding the entry free and gives up only having seen it live; alone, it acquires if and only if there is no live entry, or a corrupted or too old one, and otherwise leaves the entry as it was |
| `AggregationLock.AggregationTask.AggregateMetricsFromSources` | backend/dashboard_metrics/tasks.py:263-290 | Whatever others do, a run is skipped only if the entry was live, and any other removes the entry at its end, whether the aggregation raises or not; alone, a skipped run leaves the entry alone |
| `Calendar.DateOfOrdinal` | backend/dashboard_metrics/tasks.py:61-82 | Reading the date off a day number inverts counting days, for every date |
| `Calendar.OrdinalOfDate` | backend/dashboard_metrics/tasks.py:61-82 | And the other way round, for every day number |
| `Calendar.YearLength` | backend/dashboard_metrics/tasks.py:403-425 | The leap-year rule gives every year its number of days |
| `Calendar.NextDayOrdinal` | backend/dashboard_metrics/tasks.py:403-425 | The day after a date, across months, leap days and years, has the next number |
| `Calendar.DayAndHour` | backend/dashboard_metrics/tasks.py:45-70 | Truncation to the hour and to the day gives the last multiple not after the instant |
| `Calendar.FirstOfMonth` | backend/dashboard_metrics/tasks.py:73-82 | The first of the month of any day is that many days earlier, and is the date with day 1 |
| `Calendar.MonthOfDay` | backend/dashboard_metrics/tasks.py:73-82 | The month of an instant is the month of its day, and starts at midnight not after it |
| `Calendar.MonthIsAligned` | backend/dashboard_metrics/tasks.py:73-82 | Truncating to the month twice is truncating once |
| `Calendar.WindowIsOrdered` | backend/dashboard_metrics/tasks.py:403-425 | monthly_start <= daily_start <= hourly_start <= end_date for every end date, January and leap February included, and the first two are at midnight |
| `Calendar.WindowMonths` | backend/dashboard_metrics/tasks.py:411-425 | An instant up to the end is in the monthly window if and only if its month is the current or the previous one |
| `Calendar.MonthlyStartIsMonotone` | backend/dashboard_metrics/tasks.py:411-425 | A later run does not reach further back |
| `CalendarFacts.UnitsAre` | backend/dashboard_metrics/tasks.py:403-410 | An hour and a day in microseconds |
| `CalendarFacts.MonthLengths` | backend/dashboard_metrics/tasks.py:411-425 | The months have 31, 28 or 29 and 30 days, month by month, with the rule for centuries |
| `CalendarFacts.KnownDates` | backend/dashboard_metrics/tasks.py:411-425 | Dates around leap days, centuries and year ends follow each other as they should |
| `CalendarFacts.TruncationIs` | backend/dashboard_metrics/tasks.py:45-82 | Hour and day are cut by remainder, and months by the date |
| `CalendarFacts.WindowIs` | backend/dashboard_metrics/tasks.py:403-425 | The window is 24 hours, seven days from midnight, and the first of the previous month |
| `CalendarFacts.KnownWindows` | backend/dashboard_metrics/tasks.py:403-425 | The windows of two literal instants, one of them in January |
| `CalendarFacts.KnownOrdinals` | backend/dashboard_metrics/tasks.py:61-82 | The numbers of literal days, and the month before literal dates |
| `MetricQueries.Periods` | backend/dashboard_metrics/services.py:103-115 | The groups of a query are the truncated instants of the rows inside the inclusive bounds, each once, in order |
| `MetricQueries.SqlSum` | backend/dashboard_metrics/services.py:191-241 | A sum skips nulls, and a group of nulls has none; with nulls as zero it is the sum over the bucket |
| `MetricQueries.CombinedIsEach` | backend/dashboard_metrics/services.py:191-241 | Each column of the combined LLM query is the query of that metric alone, row by row |
| `MetricQueries.LowerBoundBelowBucket` | backend/dashboard_metrics/tasks.py:315-344 | A bucket that starts inside the window has the same sum under any lower bound not after it |
| `MetricQueries.BucketGrows` | backend/dashboard_metrics/services.py:103-115 | More non-negative rows and a wider window never make a bucket smaller |
| `MetricQueries.DaysMakeMonth` | backend/dashboard_metrics/tasks.py:332-344 | The day rows of a month add up to the month |
| `MetricRollup.AggDict.UpsertAgg` | backend/dashboard_metrics/tasks.py:37-42 | Adds one value to one key, counting it, and leaves the type of a key that is there |
| `MetricRollup.UpsertAllAt` | backend/dashboard_metrics/tasks.py:37-42 | A batch of upserts adds to each key the sum and the number of its own values, in whatever order, and touches no other key |
| `MetricRollup.HourlySays` | backend/dashboard_metrics/tasks.py:315-330 | The hourly rows of a metric have, for each hour, the sum over that hour inside the window |
| `MetricRollup.DailySays` | backend/dashboard_metrics/tasks.py:332-344 | Splitting one day query from monthly_start gives each day what grouping the rows from daily_start by day gives |
| `MetricRollup.MonthlySays` | backend/dashboard_metrics/tasks.py:332-344 | And gives each month what grouping the rows from monthly_start by month gives |
| `MetricRollup.TierGains` | backend/dashboard_metrics/tasks.py:293-344 | So two queries do what three would: every key of every tier gains what its own group-by says, and no other key changes |
| `MetricRollup.CombinedGains` | backend/dashboard_metrics/tasks.py:347-395 | One combined query per granularity does what the four LLM metrics on their own would |
| `MetricRollup.GainsAddUp` | backend/dashboard_metrics/tasks.py:504-544 | Filling the dictionaries by one metric after another is filling them by all |
| `MetricAggregation.FoldHours` | backend/dashboard_metrics/tasks.py:315-330 | The loop over hourly rows is the batch of their upserts |
| `MetricAggregation.FoldDays` | backend/dashboard_metrics/tasks.py:332-344 | One loop over day rows fills the recent days and all months |
| `MetricAggregation.FoldCombinedHours` | backend/dashboard_metrics/tasks.py:365-379 | The same for the four columns of combined rows |
| `MetricAggregation.FoldCombinedDays` | backend/dashboard_metrics/tasks.py:381-395 | The same for days and months |
| `MetricAggregation.AggregateSingleMetric` | backend/dashboard_metrics/tasks.py:293-344 | Each dictionary gains exactly its own group-by of the samples; a query that raises leaves its dictionaries as they were |
| `MetricAggregation.AggregateLlmCombined` | backend/dashboard_metrics/tasks.py:347-395 | The same for the four LLM metrics at once |
| `MetricAggregation.FillDicts` | backend/dashboard_metrics/tasks.py:504-544 | After all metrics of an organization the dictionaries hold what was delivered, metric by metric, and the errors are the queries that raised |
| `MetricAggregation.OverwriteIsRun` | backend/dashboard_metrics/tasks.py:85-204 | Overwriting a table with such a dictionary replaces each written row by its full group-by and keeps every other row |
| `MetricAggregation.EventMetrics.ProcessOrg` | backend/dashboard_metrics/tasks.py:497-564 | One turn writes the tiers up to the first failing write and counts errors and successes |
| `MetricAggregation.EventMetrics.RunAggregation` | backend/dashboard_metrics/tasks.py:398-587 | Under any failures, each row of the active organizations' delivered metrics holds its source group-by and every other row is as before; a run that adds no error has delivered everything |
| `AggregationHistory.RowsAreBounded` | backend/dashboard_metrics/tasks.py:403-564 | Over any history of runs with any failures, on growing non-negative sources, no row ever exceeds the source total up to the last end date |
| `AggregationHistory.WrittenIsExact` | backend/dashboard_metrics/tasks.py:403-425 | What is written for a bucket that starts in its tier's window is the bucket's full source total, and it is written if and only if the bucket has a source row |
| `AggregationHistory.ExactAfterRun` | backend/dashboard_metrics/tasks.py:497-564 | So after a run that delivered an organization's metric, every day of the window, every current or previous month and every hour from hourly_start on holds its source total |
| `AggregationHistory.NeverDecreases` | backend/dashboard_metrics/tasks.py:85-204 | Whatever fails, no run makes a row smaller or removes it, the row of the straddled hour excepted |
| `AggregationHistory.StraddledHourLosesItsHead` | backend/dashboard_metrics/tasks.py:403-409 | The straddled hour is written as its total less what came before hourly_start: right if and only if that is zero, and below a row that was right if and only if it is positive |
| `AggregationHistory.RowIsLastWritten` | backend/dashboard_metrics/tasks.py:85-204 | After any history a row is there if and only if some run wrote it, and holds what the last such run wrote |
| `AggregationHistory.HourIsLastTail` | backend/dashboard_metrics/tasks.py:403-409 | After any history a stored hour is the tail that the last run that wrote it saw |
| `AggregationHistory.HourIsRightIff` | backend/dashboard_metrics/tasks.py:403-409 | It is right if and only if that run lost nothing in front of its window and nothing has been added to the hour since |
| `AggregationHistory.CutHourNeverRecovers` | backend/dashboard_metrics/tasks.py:403-409 | Once a run has cut an hour with something in front of the cut, the hour is too small after every later run |
| `AggregationReruns.RerunChangesNothing` | backend/dashboard_metrics/tasks.py:120-125 | Repeating a run with the same sources and end date, in whole or in part, leaves all three tables unchanged |
| `AggregationReruns.FailuresLeaveOldOrFinal` | backend/dashboard_metrics/tasks.py:504-564 | Under any subset of failures every row is the previous one or the one the run with fewer failures writes, and a retry ends where that run would |
| `AggregationReruns.MonthStaysFinal` | backend/dashboard_metrics/tasks.py:462-474 | Once a successful run has seen an organization's last source row, its month rows stay final through all later runs that cover them |
| `AggregationReruns.DormantWritesMonthsOnly` | backend/dashboard_metrics/tasks.py:462-474 | Such an organization has monthly rows to write only |
| `AggregationReruns.StraddledHourDrops` | backend/dashboard_metrics/tasks.py:403-409 | Two error-free runs over the same two events, a day and a half hour later, take an hourly row from 2 to 1 |
| `AggregationReruns.StraddledHourSources` | backend/dashboard_metrics/tasks.py:403-409 | Sources with those two events exist |
| `AggregationSkips.SkippingIsRightIff` | backend/dashboard_metrics/tasks.py:462-495 | For any organization after any history, its daily and its monthly rows are as processing it would leave them if and only if, in each metric, every sample in the window was seen by the last run that delivered the metric, or is worth nothing on a day of which that run saw something |
| `AggregationSkips.SkippingHoursIsRightIff` | backend/dashboard_metrics/tasks.py:462-495 | Its hourly rows are if and only if, for every hour with a sample in the window, some run wrote it and since the last one as much has arrived as has dropped out of the window |
| `AggregationSkips.SkippingAllIsRightIff` | backend/dashboard_metrics/tasks.py:462-495 | So skipping leaves all three tables as processing would, for any organization after any history, if and only if its hours balance and nothing is new to its days and months |
| `AggregationSkips.HourMoves` | backend/dashboard_metrics/tasks.py:403-409 | What a run would write of an hour is what an earlier run wrote, less what has dropped out of the window, plus what has arrived |
| `AggregationSkips.SkippingIsHarmlessIff` | backend/dashboard_metrics/tasks.py:462-474 | Without a sample since daily_start, all three tables are as processing would leave them if and only if nothing is new to the months |
| `AggregationSkips.SkippingIsHarmless` | backend/dashboard_metrics/tasks.py:462-474 | It does if an earlier successful run came after the organization's last source row |
| `AggregationSkips.SkippingUnwrittenIff` | backend/dashboard_metrics/tasks.py:475-495 | An organization that no run has delivered, active or not, is skipped without loss if and only if it has no source row from the start of the previous month to the end date |
| `AggregationSkips.SkippingLosesUsage` | backend/dashboard_metrics/tasks.py:475-495 | An organization with nothing but usage rows is never active, and skipping it loses every usage row of the monthly window |
| `AggregationSkips.RowBefore` | backend/dashboard_metrics/tasks.py:85-204 | Before a run, a day or month in its window holds exactly what the last delivery saw of it |
| `AggregationSkips.BucketAggIff` | backend/dashboard_metrics/tasks.py:315-344 | A part of a bucket makes the whole row if and only if the rest is worth nothing and adds no active day |
| `AggregationFacts.KindsAre` | backend/dashboard_metrics/tasks.py:430-458 | Which metrics are histograms: pages processed, failed pages and LLM usage |
| `AggregationFacts.KeysAre` | backend/dashboard_metrics/tasks.py:325-330 | The key of every row, its project and tag constants included |
| `AggregationFacts.ActiveIs` | backend/dashboard_metrics/tasks.py:468-474 | An organization is processed if and only if one of its executions began at or after midnight seven days before the end |
| `AggregationFacts.ErrorFreeRunGotEverything` | backend/dashboard_metrics/tasks.py:497-564 | A run that counted no error delivered every metric of each active organization and wrote all three tables |
| `AggregationFacts.SingleMetricIsDirect` | backend/dashboard_metrics/tasks.py:293-344 | After such a run the row of each bucket that starts in its window is the direct sum of the metric's source rows in that hour, day or month |
| `AggregationFacts.UsageIsDirect` | backend/dashboard_metrics/services.py:191-241 | And for usage rows, counted one by one: all of them are LLM calls, those with reason challenge are challenges, those with reason summarize are summaries, and the costs add up to LLM usage |
| `TimeBuckets.GenerateTimeBuckets` | backend/dashboard_metrics/cache.py:153-201 | For each granularity the loop ends with exactly the aligned instants from the truncated start to the end, strictly increasing |
| `TimeBuckets.OneBucketEach` | backend/dashboard_metrics/cache.py:168-201 | Each instant of the range is in exactly one of them |
| `TimeBuckets.NoBucketBetween` | backend/dashboard_metrics/cache.py:182-199 | The step of the loop leads from an aligned instant to the next one |
| `TimeBuckets.MonthGap` | backend/dashboard_metrics/cache.py:190-199 | For months too, with the rollover of December |
| `BucketKeys.KeysAreInjective` | backend/dashboard_metrics/cache.py:223-234 | Two keys are equal only if organization, granularity, bucket and metric are, for organizations without a colon |
| `BucketKeys.BucketTellsItself` | backend/dashboard_metrics/cache.py:223-231 | The text of an aligned bucket tells the bucket whatever follows it, with years of any length |
| `BucketKeys.KeyIs` | backend/dashboard_metrics/cache.py:204-234 | The key is the literal prefix, granularity, organization, bucket text and metric, separated by colons |
| `BucketKeys.KnownTexts` | backend/dashboard_metrics/cache.py:219-231 | The bucket texts of a literal hour, day and month |
| `BucketKeys.KnownNumbers` | backend/dashboard_metrics/cache.py:219-231 | Numbers are written in decimal, padded with zeros |
| `BucketCache.SplitIsContent` | backend/dashboard_metrics/views.py:292-328 | One query over a wide span, split by hour, gives each covered bucket what its own query would |
| `BucketCache.PartsMakeRows` | backend/dashboard_metrics/views.py:334-341 | If every part is its bucket's content, the combined records are those of the buckets, none lost and none twice |
| `BucketCache.RowsAreDirect` | backend/dashboard_metrics/views.py:282-341 | The rows of all buckets of a range are the direct query from the hour-truncated start |
| `BucketCache.SelectIs` | backend/dashboard_metrics/views.py:292-316 | The query returns exactly the rows of the metric, project and tag asked for, not before the start and before the end, as often as the table has them |
| `BucketCache.SelectAppends` | backend/dashboard_metrics/views.py:292-316 | And in the table's order |
| `BucketCache.TtlIs` | backend/dashboard_metrics/cache.py:237-265 | A bucket written before its hour is over gets the short time to live, and one written later the long one |
| `HourlyFetch.MetricsCache.MGetMetricsBuckets` | backend/dashboard_metrics/cache.py:268-345 | Cached and missing buckets partition the requested ones; a bucket is cached if and only if a live, readable entry is there and the read did not fail |
| `HourlyFetch.MetricsCache.MSetMetricsBuckets` | backend/dashboard_metrics/cache.py:348-405 | Every bucket whose write succeeds is stored with its own time to live, and no other key changes |
| `HourlyFetch.MetricsCache.PartitionByBucket` | backend/dashboard_metrics/views.py:319-328 | Every missing bucket gets its own records of the wide query, in order, the empty ones too |
| `HourlyFetch.MetricsCache.FillMissing` | backend/dashboard_metrics/views.py:290-332 | Every missing bucket gets exactly the table's content of it at the time of the query |
| `HourlyFetch.MetricsCache.FetchParts` | backend/dashboard_metrics/views.py:282-332 | The parts are one per requested bucket, cached or read, and those read are stored |
| `HourlyFetch.MetricsCache.FetchHourlyWithBucketCache` | backend/dashboard_metrics/views.py:258-341 | Between table changes, evictions and garbled entries of any kind, each bucket returned is the table's content of that bucket now, or at an instant within its time to live plus the write delay, under this fetch's filter or that of an earlier fetch; what it could not find and could write is in the cache afterwards, and nothing else has changed |
| `HourlyFetch.MetricsCache.CombineRecords` | backend/dashboard_metrics/views.py:334-341 | The records are the parts one after another |
| `HourlyFetch.MetricsCache.Tick` | backend/dashboard_metrics/cache.py:237-265 | Time passing, with the table changing, keeps that guarantee |
| `HourlyFetch.MetricsCache.Evict` | backend/dashboard_metrics/cache.py:297-345 | An entry dropped by the server keeps it |
| `HourlyFetch.MetricsCache.Garble` | backend/dashboard_metrics/cache.py:322-332 | An unreadable entry under any key keeps it |
| `HourlyFetch.WriteKeepsFresh` | backend/dashboard_metrics/cache.py:348-405 | Writing buckets read a short while ago keeps every entry of the cache a recent content of its own bucket |
| `HourlyFetch.FetchedAreRecent` | backend/dashboard_metrics/views.py:282-341 | What is served from such a cache, or read, is recent |
| `HourlyFetch.PartsAreYoung` | backend/dashboard_metrics/cache.py:237-265 | A served part of a bucket whose hour was not over when it was written was read less than the short time to live and the write delay ago, one of a finished hour within the long one |
| `HourlyFetch.StoredIsFor` | backend/dashboard_metrics/cache.py:348-405 | What a fetch stores lives for exactly the short or the long time, by whether its hour was over |
| `HourlyFetch.UnchangedTableIsDirect` | backend/dashboard_metrics/views.py:282-341 | If the table did not change and all fetches used one filter, the result is the direct query from the hour-truncated start, as a multiset |
| `SharedBuckets.SecondFetchGetsFirstFilter` | backend/dashboard_metrics/views.py:282-328 | A fetch that finds a bucket which a fetch under another filter has stored gets what the other one asked for |
| `SharedBuckets.SharingIsRightIff` | backend/dashboard_metrics/cache.py:204-234 | Whatever the table holds, the second of two fetches that share an entry gets what it asks for if and only if both have the same project and tag filter |
| `SharedBuckets.SharedBucketIsRightIff` | backend/dashboard_metrics/views.py:299-306 | For one table it does if and only if each row of the bucket passes both filters or neither |
| `SharedBuckets.CoveringIsExact` | backend/dashboard_metrics/views.py:299-306 | Every row that passes one filter passes another if and only if the other has no project or the same, and no tag or the same; both ways only for equal filters |
| `SharedBuckets.OtherProjectsRow` | backend/dashboard_metrics/views.py:299-306 | Fetched for one project and then for another, a row of the first is shown as one of the second |
| `MetricSeries.GroupRecords` | backend/dashboard_metrics/views.py:509-530 | The groups are the points that occur, each with the sum of the values and counts of its own records and the last type |
| `MetricSeries.SeriesData` | backend/dashboard_metrics/views.py:532-543 | The rows are one per point, sorted by period and metric |
| `MetricSeries.DataAddsUp` | backend/dashboard_metrics/views.py:509-543 | Whatever points are selected, the rows add up to the records behind them |
| `MetricSeries.BuildSeries` | backend/dashboard_metrics/views.py:634-664 | Each series has the points of its rows in order and their totals |
| `MetricSeries.SeriesTotals` | backend/dashboard_metrics/views.py:634-664 | The total of a series is that of its records |
| `MetricSeries.SeriesFromRecords` | backend/dashboard_metrics/views.py:488-664 | Through both groupings, every series totals its own records and all series total all records |
| `MetricSeries.ConserveTotals` | backend/dashboard_metrics/views.py:634-664 | Totals that agree series by series agree in sum |
| `MetricSeries.PointsIncrease` | backend/dashboard_metrics/views.py:543-656 | The points of a series are strictly increasing in time |
| `MetricSeries.WeekIsItsDays` | backend/dashboard_metrics/views.py:495-508 | Each weekly point is the sum of the daily points of that week, in value and in count |
| `MetricSeries.PeriodIsStart` | backend/dashboard_metrics/views.py:495-508 | Hours, days and weeks are multiples of their length; weeks are seven days from a Monday |
| `MetricSeries.RowIsDirect` | backend/dashboard_metrics/views.py:509-543 | A row is the direct sum of values and of counts over the records of its period, metric, project and tag, with the kind of the last of them |
| `MetricSeries.RowsAreInOrder` | backend/dashboard_metrics/views.py:543 | Rows come by time and, at one time, by metric name |
| `MetricSummary.TallyRecords` | backend/dashboard_metrics/views.py:378-398 | One tally per metric that occurs, with its totals and all its values |
| `MetricSummary.AverageBetween` | backend/dashboard_metrics/views.py:400-413 | The average of a metric lies between its least and its greatest value, and is the total over the count |
| `MetricSummary.EntryIs` | backend/dashboard_metrics/views.py:400-413 | Every entry has its records' totals, their least and greatest value and their average, in that order |
| `MetricSummary.Summarize` | backend/dashboard_metrics/views.py:378-414 | One entry per metric, sorted by name, each right and ordered, adding up to all records |
| `MetricSummary.ConserveSummary` | backend/dashboard_metrics/views.py:378-414 | Entries that are right one by one add up to all records |
| `MetricSummary.EntryIsDirect` | backend/dashboard_metrics/views.py:378-414 | An entry is the direct sum over its metric's records, and its average times their number is the total |
| `MetricSummary.BoundsAreDirect` | backend/dashboard_metrics/views.py:400-413 | Its minimum and maximum are values of its metric's records and bound them all |
| `Sorting.StringLeIs` | backend/dashboard_metrics/views.py:414 | Names are ordered by the first character that differs, a shorter one before its extensions |
| `DeploymentUsage.BuildExecStats` | backend/dashboard_metrics/services.py:739-779 | Every deployment with an execution has its counts by status and its earliest and latest time stamp, and every execution its deployment |
| `DeploymentUsage.PagesByDeployment` | backend/dashboard_metrics/services.py:782-819 | Pages reach a deployment if and only if file, execution and deployment are mapped |
| `DeploymentUsage.AggregateUsage` | backend/dashboard_metrics/services.py:822-841 | Tokens, cost and calls per deployment are the sums over the rows of its executions |
| `DeploymentUsage.AddUnused` | backend/dashboard_metrics/services.py:917-923 | Deployments with executions but no usage get an empty entry |
| `DeploymentUsage.Rank` | backend/dashboard_metrics/services.py:925-956 | The results are the items, sorted by tokens descending, ties in their old order |
| `DeploymentUsage.GetDeploymentUsage` | backend/dashboard_metrics/services.py:844-958 | One result for each deployment with an execution and no other, each with its own usage, pages and statistics, the heaviest first; nothing if there are no deployments |
| `DeploymentUsage.ReportConserves` | backend/dashboard_metrics/services.py:917-956 | Executions sum to the number of execution rows, tokens, calls, cost and pages to their mapped rows; completed + failed <= total and first <= last in each |
| `DeploymentUsage.FirstBeforeLast` | backend/dashboard_metrics/services.py:762-776 | The first time stamp is there if and only if the last is, and is not after it |
| `DeploymentUsage.UsageKeysAreDeps` | backend/dashboard_metrics/services.py:822-841 | A deployment with usage has an execution |
| `DeploymentUsage.MappedIffRuns` | backend/dashboard_metrics/services.py:739-779 | An execution is mapped to a deployment if and only if its row names it |
| `DeploymentUsage.MappedIffRunsFile` | backend/dashboard_metrics/services.py:782-805 | And a file to an execution |
| `DeploymentUsage.PageDepIff` | backend/dashboard_metrics/services.py:782-819 | A page row counts for a deployment if and only if its file ran in one of that deployment's executions |
| `DeploymentUsage.StatsAreCounts` | backend/dashboard_metrics/services.py:739-779 | Total, completed and failed are the numbers of the deployment's rows with those statuses, and the stamps bound theirs and are among them |
| `DeploymentUsage.UsageIsDirect` | backend/dashboard_metrics/services.py:822-841 | Tokens, cost and calls are the direct sums over the usage rows of the deployment's executions |
| `SecretPatterns.RunTo` | backend/mcp_server/sanitize.py:33-101 | A greedy repetition stops at the first character outside its class |
| `SecretMatching.BearerMatchIffSpan` | backend/mcp_server/sanitize.py:38-47 | The bearer matcher finds a match if and only if there is one, keeps the word and the spaces, and replaces the longest token |
| `SecretMatching.KeyValueMatchHas` | backend/mcp_server/sanitize.py:50-89 | What the key/value matcher finds is a match of the pattern, and its value is the longest |
| `SecretMatching.KeyValueMatchIs` | backend/mcp_server/sanitize.py:50-89 | It finds a match wherever there is one, with that value |
| `SecretMatching.KeyEndsAgree` | backend/mcp_server/sanitize.py:70-76 | If two of the listed names both lead to a value, they end at the same place, so the order of the alternatives does not matter |
| `SecretMatching.UrlMatchHas` | backend/mcp_server/sanitize.py:91-100 | What the URL matcher finds is a match of the pattern |
| `SecretMatching.UrlMatchIs` | backend/mcp_server/sanitize.py:91-100 | It finds every match, with exactly that secret |
| `BearerSafety.FirstPassClears` | backend/mcp_server/sanitize.py:33-47 | The first pass leaves no match of the bearer pattern |
| `BearerSafety.PassKeepsBearerFree` | backend/mcp_server/sanitize.py:33-101 | No other pass brings one back |
| `BearerSafety.ThreePassesLeaveNoBearer` | backend/mcp_server/sanitize.py:253-256 | For every text, the three passes in a row leave no bearer match at any position |
| `MarkedSecrets.PassCleans` | backend/mcp_server/sanitize.py:253-256 | If a pattern's copying and rewriting leave only marked secrets, so does its whole pass |
| `UrlSafety.UrlHeadWas` | backend/mcp_server/sanitize.py:91-101 | The last pass creates no URL credential |
| `UrlSafety.LastPassMarksUrls` | backend/mcp_server/sanitize.py:91-101 | In every scheme://user:secret@ of its output the secret is exactly the marker |
| `KeyValueSafety.SecondPassCleans` | backend/mcp_server/sanitize.py:50-89 | After the second pass every value behind a secret name begins with the marker and ends inside it |
| `KeyValueSafety.ThirdPassKeepsClean` | backend/mcp_server/sanitize.py:91-101 | The last pass keeps that |
| `KeyValueSafety.LastPassesMarkValues` | backend/mcp_server/sanitize.py:50-101 | So in the output of the last two passes every named value is the marker |
| `Redactor.RedactSecrets` | backend/mcp_server/sanitize.py:227-256 | No text gives none; any other gives the text itself if it is ASCII without an anchor, and the three passes' result otherwise |
| `Redactor.FullPathIs` | backend/mcp_server/sanitize.py:253-256 | The loop over the patterns is the composition of the three passes |
| `Redactor.KeyNameAnchor` | backend/mcp_server/sanitize.py:50-76 | Every listed name begins with an anchor or one of the two missed spellings |
| `Redactor.BearerAnchored` | backend/mcp_server/sanitize.py:127-149 | Every bearer match shows an anchor |
| `Redactor.KeyValueAnchored` | backend/mcp_server/sanitize.py:127-149 | Every key/value match shows an anchor or a missed spelling |
| `Redactor.UrlAnchored` | backend/mcp_server/sanitize.py:127-149 | Every URL match shows an anchor |
| `Redactor.PrefilterSound` | backend/mcp_server/sanitize.py:246-256 | With access-key and accesskey added, a text without anchors is unchanged by all three passes |
| `Redactor.PrefilterExact` | backend/mcp_server/sanitize.py:246-256 | With the anchors as listed, the early return equals the full path if and only if the text has no key/value match, and otherwise a missed spelling is in it |
| `Redactor.MissedSpelling` | backend/mcp_server/sanitize.py:246-256 | A text with accesskey is returned as it is, value and all |
| `Redactor.MatchingChanges` | backend/mcp_server/sanitize.py:50-89 | The second pass changes every text it matches |
| `Redactor.SecondPassIdempotentIff` | backend/mcp_server/sanitize.py:50-89 | Running the second pass again changes nothing if and only if it had nothing to do the first time |
| `Redactor.FullPathIsSafe` | backend/mcp_server/sanitize.py:253-256 | On the full path nothing readable is left of any of the three patterns, for ASCII text |
| `Redactor.RedactedIsSafe` | backend/mcp_server/sanitize.py:227-256 | For ASCII text, bearer tokens and URL secrets are gone from every output, early return included, and named values from every text that is not returned early with a missed spelling |
| `RedactTwice.SecondIsDoubled` | backend/mcp_server/sanitize.py:50-89 | On a redacted text the second pass does nothing but double the closing bracket of markers |
| `RedactTwice.UrlHeadDoubled` | backend/mcp_server/sanitize.py:91-100 | Doubled brackets make no URL credential and unmake none |
| `RedactTwice.AgainUrl` | backend/mcp_server/sanitize.py:91-101 | Of a credential, the third pass takes the second bracket of the secret, and no other |
| `RedactTwice.AgainIff` | backend/mcp_server/sanitize.py:50-101 | From any position the last two passes give back a redacted text, or a longer one, and the text itself if and only if every named value is the secret of a credential |
| `RedactTwice.FullPathTwiceIff` | backend/mcp_server/sanitize.py:253-256 | The three passes leave their own output alone if and only if every named value in it is the secret of a URL credential |
| `RedactTwice.RedactedTwiceIff` | backend/mcp_server/sanitize.py:227-256 | A second redaction changes nothing if and only if the text now shows no anchor or every named value in it is the secret of a URL credential |
| `NamedValues.NamesAre` | backend/mcp_server/sanitize.py:57-76 | The names the pattern takes, in any letter case and with an underscore, a hyphen or nothing between their words, are exactly the names written out |
| `NamedValues.NameEndsAt` | backend/mcp_server/sanitize.py:57-76 | The pattern sees a name at a place if and only if one of them stands there |
| `NamedValues.MaskedIffNamed` | backend/mcp_server/sanitize.py:50-89 | In name, spaces, = or :, spaces, value and whatever may follow a value, the three passes replace exactly the value if one of the names ends before the delimiter and begins the text or follows an underscore or a hyphen; otherwise they change nothing |
| `NamedValues.NamedValueIsMasked` | backend/mcp_server/sanitize.py:227-256 | So such a value comes back as the marker, whatever characters it has and whatever the name is a part of, the two missed spellings excepted |
| `NamedValues.BeyondAscii` | backend/mcp_server/sanitize.py:245-256 | A text with any character beyond ASCII goes through all three passes |
| `NamedValues.BeyondAsciiIsMasked` | backend/mcp_server/sanitize.py:104-126 | With any character beyond ASCII in the text the two missed spellings are masked as well |
| `NamedValues.UnnamedIsKept` | backend/mcp_server/sanitize.py:227-256 | And a text without such a name comes back as it is: hastoken=5 and token_count=5 do |
| `NamedValues.NameAndValue` | backend/mcp_server/sanitize.py:227-256 | Every name, every delimiter and every non-empty value of value characters: name=value comes back as name=[REDACTED] |
| `TokensAndUrls.TokenIsMaskedIff` | backend/mcp_server/sanitize.py:33-47 | A bearer token comes back as the marker if and only if it has eight characters and the word does not end a longer one, in any letter case and with any spaces |
| `TokensAndUrls.CredentialIsMasked` | backend/mcp_server/sanitize.py:91-101 | The secret of scheme://user:secret@ comes back as the marker if and only if it is not empty, with a user and without |
| `SecretNames.SecretIffWords` | backend/mcp_server/sanitize.py:151-204 | The secret field names, word by word: a row of words is secret in snake, kebab, spaced and camel case if and only if it is one of the nineteen |
| `SecretNames.SecretIffNormal` | backend/mcp_server/sanitize.py:183-204 | A field name is secret if and only if its normal form is one of these rows joined by underscores |
| `SecretNames.HumpIs` | backend/mcp_server/sanitize.py:183-194 | A name is split exactly between a small letter or digit and a capital, and a hyphen becomes an underscore |
| `SecretNames.OneWordName` | backend/mcp_server/sanitize.py:151-204 | The one-word names of free text are secret field names, in small letters and in capitals |
| `SecretNames.TwoWordsShared` | backend/mcp_server/sanitize.py:57-76 | Those of two words are if and only if a separator is between them, or for apikey |
| `SecretNames.ThreeWordsShared` | backend/mcp_server/sanitize.py:57-76 | Those of three if and only if both separators are there |
| `SecretNames.WalkIs` | backend/mcp_server/sanitize.py:286-306 | The walk container by container: under a secret text name a string becomes the marker, and everything else is walked in place |
| `RedactStructure.NormaliseIdempotent` | backend/mcp_server/sanitize.py:183-194 | A normalised field name is its own normal form |
| `RedactStructure.SpellingsAgree` | backend/mcp_server/sanitize.py:183-204 | Snake, kebab, spaced and camel case spellings of the same words have one normal form, so the list of names needs one entry for them |
| `RedactStructure.StructureIsScrubbed` | backend/mcp_server/sanitize.py:259-306 | The walk keeps the shape of every value; in its output every field with a secret name holds the marker where the walk says so, and every text is safe |
| `RedactStructure.HarmlessIsUntouched` | backend/mcp_server/sanitize.py:259-306 | A value with no secret names and no anchors comes back as it went in |
| `HeartbeatKeeper.HeartbeatsArePaced` | workers/worker.py:225-303 | In every run no attempt comes before stop, the first comes within normal_check_interval of it, and later ones are exactly shutdown_interval apart |
| `HeartbeatKeeper.NeverLate` | workers/worker.py:225-303 | As long as nobody terminates it, the keeper is never behind with an attempt |
| `HeartbeatKeeper.ErrorsAreFailures` | workers/worker.py:150-193 | The error counter is always the number of failed sends since the last success, and the stored time that of the last success |
| `HeartbeatKeeper.ErrorsAreCounted` | workers/worker.py:150-193 | The same by position: the counter is the number of failed sends behind the last that went through, whose time is the stored one |
| `HeartbeatKeeper.ExitsOnlyWhenTerminated` | workers/worker.py:119-133 | The loop exits only after terminate, and at once |
| `HeartbeatKeeper.AtMostOneMore` | workers/worker.py:128-133 | After terminate at most one more attempt is made, the one already under way |
| `HeartbeatKeeper.NextAttemptComes` | workers/worker.py:265-303 | In warm shutdown any run can go on to one more attempt, at the end of the wait under way, whatever came of the earlier ones |
| `HeartbeatKeeper.StandbyGoesOn` | workers/worker.py:248-263 | Before it, to the next look after the check interval, with nothing attempted |
| `HeartbeatKeeper.ExitComes` | workers/worker.py:128-133 | And once terminated, to the end of the loop at the same instant |
| `HeartbeatKeeper.RunGoesOn` | workers/worker.py:265-303 | What can follow the end of a run makes a longer run |
| `HeartbeatKeeper.StepKeepsInv` | workers/worker.py:225-303 | The invariant behind these survives every step of the loop and both signals |
| `HeartbeatKeeper.HeartbeatKeeper.LoopPass` | workers/worker.py:265-303 | One pass exits, stands by for the check interval, or makes one attempt and waits for the shutdown interval, in this order of tests; the counter is again the failures since the last success |
| `HeartbeatKeeper.HeartbeatKeeper.AttemptShutdownHeartbeat` | workers/worker.py:195-263 | Takes over from standby and makes one attempt, whatever comes of it |
| `HeartbeatKeeper.HeartbeatKeeper.Stop` | workers/worker.py:119-126 | Only announces the shutdown |
| `HeartbeatKeeper.HeartbeatKeeper.Terminate` | workers/worker.py:128-133 | Sets the event that ends the loop and any wait |
| `KeyScope.InvHolds` | backend/global_api_deployment_key/serializers.py:115-195 | Over every history of creates, updates, rotations and deletions, an allow-all key has an empty list, every listed deployment is the key's own organization's, names are unique in an organization and tokens everywhere |
| `KeyScope.ApplyKeepsInv` | backend/global_api_deployment_key/serializers.py:115-195 | Each operation keeps this |
| `KeyScope.NewScopesCohere` | backend/global_api_deployment_key/serializers.py:85-129 | In particular each accepted request leaves a coherent scope |
| `KeyScope.NamedScopeIsUsable` | backend/global_api_deployment_key/serializers.py:147-195 | An accepted update that names a scope field leaves a key that is allow-all or lists a deployment, and that reaches exactly what was asked for |
| `KeyScope.UnnamedScopeIsKept` | backend/global_api_deployment_key/serializers.py:147-195 | One that names none is never refused for its scope, changes no key's set of deployments and touches no other key |
| `KeyScope.RefusedOnlyForCause` | backend/global_api_deployment_key/serializers.py:147-188 | An update is refused if and only if it names a scope field and lists deployments for an allow-all key or leaves a key that reaches nothing |
| `KeyScope.OnlyDeletionStrands` | backend/global_api_deployment_key/serializers.py:147-195 | Only deleting the one deployment a key lists can leave it reaching nothing |
| `KeyScope.DropTakesOneAway` | backend/global_api_deployment_key/models.py:52-70 | Deleting a deployment takes that one away from every key and no other |
| `KeyScope.TokenStandsForKey` | backend/api_v2/key_helper.py:68-110 | A token authenticates exactly what its own key has access to, never another organization's deployment |
| `KeyScope.InactiveKeyIsRefused` | backend/global_api_deployment_key/models.py:52-70 | In every history the token of an inactive key authenticates nothing |
| `KeyScope.DeactivationHolds` | backend/global_api_deployment_key/models.py:52-70 | Once an accepted update made a key inactive, its token authenticates nothing until an accepted update makes the key active again |
| `KeyScope.RetiredForever` | backend/global_api_deployment_key/views.py:66-73 | A token that was issued and belongs to no key never authenticates again |
| `KeyScope.RotationRetiresToken` | backend/global_api_deployment_key/views.py:66-73 | Rotation hands the access over to the new token and ends the old one for good |
| `KeyScope.DeletionRetiresToken` | backend/global_api_deployment_key/views.py:24-40 | Deleting a key of the caller's organization ends its token for good and touches no other key; another organization's identifier deletes nothing |
| `GlobalKeys.GlobalApiDeploymentKeys.CheckDeployments` | backend/global_api_deployment_key/serializers.py:75-91 | The related field accepts exactly lists of the caller's organization's deployments |
| `GlobalKeys.GlobalApiDeploymentKeys.ValidateCreate` | backend/global_api_deployment_key/serializers.py:115-129 | Accepts if and only if exactly one of allow-all and a non-empty list is given, with the error that fits |
| `GlobalKeys.GlobalApiDeploymentKeys.ValidateUpdate` | backend/global_api_deployment_key/serializers.py:147-188 | Accepts exactly the coherent updates, judging fields not sent by the key, and empties the list of a key that will be allow-all |
| `GlobalKeys.GlobalApiDeploymentKeys.Update` | backend/global_api_deployment_key/serializers.py:190-195 | Writes the fields that were sent and the list if there is one, to that key only |
| `GlobalKeys.GlobalApiDeploymentKeys.CreateKey` | backend/global_api_deployment_key/views.py:42-49 | An accepted request adds exactly the key asked for, a refused one nothing |
| `GlobalKeys.GlobalApiDeploymentKeys.PartialUpdate` | backend/global_api_deployment_key/views.py:56-64 | Succeeds if and only if the key is found, the text is fine, the deployments are the organization's own and the scope is acceptable; otherwise nothing changes |
| `GlobalKeys.GlobalApiDeploymentKeys.RotateKey` | backend/global_api_deployment_key/views.py:66-73 | Replaces the token of a key found in the organization and nothing else |
| `GlobalKeys.GlobalApiDeploymentKeys.Validate` | backend/api_v2/key_helper.py:68-110 | The look-up by token alone, with the key's own check, is authentication |

## Left out

- Redis, Celery, the Django ORM, REST framework and HTTP themselves: ZSETs and cache entries are maps with expiry times, tables are maps or sequences, a source query is a group-by with inclusive bounds.
- Logging, settings and environment lookup, plugin discovery, the transport and handlers of the MCP server, permissions, sharing and membership rules.
- The deprecated `check_rate_limit` and the read-through cache of organization limits: an admission reads an arbitrary limit.
- RateLimiter.APIDeploymentRateLimiter.TakeLock: the polling of the lock is one look at it after whatever others did meanwhile; an error of the final unlock, which the code swallows, is a crash in the protocol.
- RateLimitSafety.ZsetsAgree: execution identifiers are unique, as the callers make them; two acquires under one identifier are not modelled.
- Time zones other than UTC, years beyond 9999 and a previous month before year 1: `HasWindow` says that the window exists.
- Retention: `cleanup_hourly_metrics` and `cleanup_daily_metrics` delete old rows and are not part of this model.
- AggregationHistory.ExactAfterRun: sources are append-only and non-negative, which the executions and usage tables are meant to be; a status that changes later, moving an old row into a query, is not modelled.
- Floating point: amounts and costs are reals, and the rounding of cost to four places is left out.
- The project and the tag of aggregated rows are the constants that the code writes (`KeyOf`), the only ones it ever does.
- The whole-response cache decorator, the queries behind `summary` and `series` for the daily and monthly sources, and the live endpoints.
- HourlyFetch.MetricsCache.FetchHourlyWithBucketCache: the round trip of records through JSON is the identity or a garbled entry; without a Redis client the same look-ups and writes go through the Django cache, which can be garbled by nobody.
- RateLimitTightness.OrgOvershootIsReached: for organization limits up to the global one, which otherwise refuses first.
- HourlyFetch.UnchangedTableIsDirect: rows of the hourly table start at full hours, as the aggregation writes them.
- MetricSeries.SeriesFromRecords: records come with their time stamps parsed; the text form of a time stamp is left out.
- DeploymentUsage.GetDeploymentUsage: the database look-ups before the assembly are parameters.
- Redactor.RedactSecrets: letters are compared without case for ASCII only, and white space is the ASCII part of it; a text with other characters always takes the full path, as in the code.
- Redactor.RedactedIsSafe: for texts with other characters the statement is about these ASCII classes, not about the folding of letters beyond ASCII.
- RedactStructure.StructureIsScrubbed: dictionaries are sequences of fields, and keys that are not text keep their place and have their values walked.
- HeartbeatKeeper.HeartbeatsArePaced: a send is instantaneous and wake-ups are on time; delays of the scheduler and of the broker would be added to the bounds.
- GlobalKeys.GlobalApiDeploymentKeys.CreateKey: the checks of the text of names and descriptions are one boolean, and of several field errors the first is reported.
