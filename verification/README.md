# Verification of the production-data portal

Dafny models of the parts of the portal whose correctness is hardest to see from the code, each with the property
the code is there for. `dafny verify dfyconfig.toml` checks everything.

| file | component |
|---|---|
| `sql.dfy`, `ordering.dfy`, `router.dfy` | the SQL the query builders emit as a syntax tree with a meaning over an archive and a live table; routing by date range; bind parameters |
| `http_dates.dfy` | the date parameters: inclusive calendar days in, half-open text bounds out |
| `records.dfy`, `paging.dfy` | `GET /records`: filters, cursor, one page, the walk over all pages |
| `aggregation.dfy`, `summary.dfy` | "aggregate each side, then merge", and the three summary endpoints built on it |
| `queue.dfy` | webhook delivery as a protocol: every interleaving of worker, API, crashes, restarts and time |
| `delivery_store.dfy`, `worker.dfy`, `backoff.dfy` | the delivery table's operations, the worker's tick (shown to be a run of the protocol), the retry schedule |
| `materials.dfy` | material intake: batch upsert, delete with tombstone, restore, and histories of them |
| `automation.dfy` | the one-automation-at-a-time guard under concurrent triggers |
| `rate_limiter.dfy` | the sliding-window limiter against the full admission history |
| `cache.dfy` | the version-keyed result cache under thread interleavings |
| `cooldown.dfy` | anomaly alert cooldowns over runs of scans |
| `env_file.dfy`, `pytext.dfy` | the `.env` reader and writer |
| `closure.dfy` | the dependency closure of the lock file |
| `like.dfy`, `text_order.dfy`, `timestamps.dfy`, `unicode_digits.dfy`, `options.dfy` | LIKE and its escaping, text comparison, ISO timestamps, decimal digits, shared datatypes |

## How to read it

Objects whose methods change their fields are classes (`DeliveryStore.Store`, `DispatchWorker.Worker`,
`Materials.Store`, `Automation.RunStore`, `RateLimiting.RateLimiter`, `ApiCache.Cache`, `Cooldown.StateFile`). Their
methods say exactly what the new state is, in terms of a function of the old one; the promises are then proved about
those functions and about runs of them. The protocols (`Queue`, `ApiCache`, `Automation`) are step relations; every
lemma about them quantifies over all runs.

What an operation promises is also said without the functions that specify it: on calendar days (`HttpDates.OnDays`),
on the rows an entry stands for (`Aggregation.Reports`), on the fields of the rows before and after (the contracts of
the stores), on the outcome of a send (`Queue.Settles`), on the lines of a batch (`Materials.StoresBatch`,
`Materials.CountsLines`), on the sends of a run (`Queue.SendsAreBounded`).

The clock, the random draw, the outcome of a send, the content of the database, and whether a file can be read or
written or a transaction goes through are parameters. A database transaction is atomic. Where several statements
interleave with other threads (a tick of the worker, a trigger, a cached call) each statement is a step of its own.

## What does not hold, and exactly when it does

- Routing a month loses none of its rows, whatever the databases hold, but for two month parameters
  (`SummaryRoutes.MonthRoutingIsLosslessExactlyWhen`). `9999-12`: its next month is written `10000-01-01`, which sorts
  before the cutoff, and the live database is skipped. `2026-01`: the archive is skipped, and loses an archived row of
  that month, such as a misdated `2026-01-00`; it is complete exactly when the archive holds none
  (`SummaryRoutes.CutoffMonthIsKeptExactlyWhenAligned`), as with calendar dates.
- An empty upper bound is no filter but switches the live side off (`Router.RoutingIsLosslessExactlyWhen`). No endpoint
  passes one: `_normalize_date` turns it into an absent bound.
- The average of per-side averages is the true average only where one side holds nothing, both sides count the same, or
  both averages agree (`Aggregation.SplitAverageIsTrueExactlyWhen`). The monthly endpoints answer with the averages of
  the whole table exactly when that holds of every group asked for (`SummaryRoutes.AveragesSurvive`). Month groups are
  one-sided for calendar dates; one archived row of 0 misdated `2026-01-00` beside two live rows of 30 dated
  `2026-01-01` makes the monthly totals report 15 for January 2026 where the average is 20
  (`SummaryRoutes.UnalignedAverageCanBeWrong`).
- `Retry-After` is capped at an hour and jittered like every base delay, so it is waited out only up to the cap and for
  draws of at least one half (`Backoff.RetryAfterIsHonouredExactlyWhen`).
- Cached results are recent in every run exactly when no two contents of the databases share a version
  (`ApiCache.AlwaysRecentExactlyWhenVersionsIdentify`). The code's version is two modification times rounded to whole
  seconds, and `0_0` on any `OSError`, so two writes within one second, or two errors, do share one; a result cached
  between them is served until it expires.
- `get_db_version` reads the clock before it waits for its lock. The "one second" of the cache counts from that
  reading, and from the forming of the key only for a call that did not wait
  (`ApiCache.RecentWhenFormedExactlyWithoutWaiting`).
- The cooldown after an emission holds exactly when the scan managed to save its state, or could not read that the file
  already held a later emission (`Cooldown.CooldownHoldsExactlyWhenSaved`); `save_state` only logs a failure. That is for
  runs in which no scan overwrites a state it could not read and the next emitting scan reads it: `load_state` starts
  from an empty state when it cannot, so that scan emits every finding at once, whatever was emitted a moment ago, and if
  it saves, all other cooldowns are gone (`Cooldown.UnreadStateIsForgotten`).
- A finding whose emission failed is fresh again at the next scan, unless the scan could neither read nor write the state
  and the next one reads there that the cooldown still runs (`Cooldown.FailedEmissionIsRetried`).
- `GET /records` answers 500, not 400, for a quantity, a cursor id or an offset beyond 64 bits: binding it, or the OFFSET,
  raises (`Paging.GetRecords`, `Paging.OutOfRange`). Following cursors from a request in range stays in range
  (`Paging.NextCursorIsInRange`).
- A restart leaves no row in flight only when its recovery goes through; `recover_stale_in_flight` swallows a database
  error and the worker starts anyway. What is left is freed by the first tick after the lease
  (`Queue.RestartFreesEverything`, `Queue.LeaseFreesOrphans`).
- A key or value survives the `.env` round trip exactly when it is stripped and free of line breaks, and a key also
  holds no `=` and does not start with `#` (`EnvFile.RoundTripExactlyWhenClean`).
- With a limit of zero or less every request is denied and `retry_after` is 0 (`RateLimiting.RateLimiter.RetryAfter`).
- `WEBHOOK_MAX_ATTEMPTS` below 1 still allows the first attempt; the bound on attempts is the larger of the two
  (`Queue.Cap`).

Code and its own documentation differ in two places, where the model follows the code: `filter_new` admits a finding
at exactly the cooldown, not only after more than it; and an unchanged row keeps its `updated_at`, though the header of
`api/materials/store.py` says it is always refreshed.

## Assumptions

- One worker thread, as `api/notifications/worker.py` states. A batch of 16 sends of 5 seconds may outlast the lease
  of 60 seconds; held rows stay untouched only because the thread that recovers is the thread that holds the batch.
  `stop()` gives up waiting after a timeout; a `start()` right after that would make a second thread, and is outside
  the model.
- Ids are unique within each database.
- Clocks do not go back: those of the limiter, the scans, the delivery queue, the automation runs and the cache. With a
  clock set back, for example, a start leaves rows in flight whose claim lies in its future.

## Model

| member | source | states |
|---|---|---|
| Like.ChainIsOnePass | shared/validators.py:140-143 | the three chained replacements are one per-character escape, for every text |
| Like.EscapedMatchesLiterally | shared/validators.py:140-143 | an escaped text in a LIKE pattern matches itself only, up to ASCII case, and leaves the rest of the text to the rest of the pattern |
| Like.FoldIs | shared/validators.py:140-143 | the case LIKE ignores is that of the twenty-six ASCII letters, and of no other character |
| Like.SubstringSearch | api/routers/records.py:103-109 | `%esc(q)%` matches a text if and only if q occurs in it |
| Like.PrefixSearch | api/routers/records.py:111-113 | `esc(q)%` matches a text if and only if the text starts with q |
| Timestamps.TailOrder | api/notifications/_store_models.py:83-84 | an absent fraction sorts before every six-digit one, because '+' sorts before '.' |
| Timestamps.CalendarOrder | api/notifications/deliveries_repo.py:227-230 | comparing year, month, day compares the days on the time line |
| Timestamps.CalendarHasNoGap | api/_http_helpers.py:26-29 | the days from 1 January of year 1 to 31 December 9999 are numbered without a gap |
| Timestamps.TickIsOneMicrosecond | api/notifications/_store_models.py:83-84 | the time line is counted in microseconds, across minutes, hours and days |
| Timestamps.TextOrderIsTimeOrder | api/notifications/deliveries_repo.py:143-146 | comparing two stored UTC texts, strictly or not, compares the instants in microseconds, for all years 1 to 9999 |
| Timestamps.NextDayBound | api/routers/records.py:157-158 | "before the next day" is "not after the day" on the stored texts, across month and year ends |
| Timestamps.NextDayIsNext | api/_http_helpers.py:26-29 | the next day is one day later on the time line, and no day lies between, across month and year ends |
| HttpDates.UpToIsBeforeNext | api/_http_helpers.py:26-29 | of any text, calendar date or not: it sorts before every day after the last one if and only if it sorts before the bound that is bound |
| HttpDates.CalendarDateIsOnDays | api/routers/records.py:82-83 | a calendar date is in the range asked for if and only if it is none before the first day and none after the last, both included |
| Sql.HoldsParts | shared/database.py:247-258 | a conjunction or disjunction consumes the bind parameters of its parts left to right |
| Sql.ValuesAreOrdered | shared/database.py:256-266 | the comparisons of the clauses order all values but NULL strictly, numbers before texts |
| Ordering.SortSorts | shared/database.py:274-275 | ORDER BY date, source, id descending returns the same bag of rows, strictly ordered when sort keys are distinct |
| Ordering.ListingIsUnique | shared/database.py:217 | that order has exactly one listing of a bag of rows, so paging over it is well defined |
| Ordering.FilterThenSort | api/routers/records.py:131-141 | restricting to rows after a cursor before sorting is restricting the sorted result |
| Router.SkippedSideHoldsNoMatch | shared/database.py:103-123 | a database that routing skips holds no row of the range |
| Router.RoutingIsLosslessExactlyWhen | shared/database.py:103-123 | routing loses no row of any content if and only if the upper bound is not the empty text |
| Router.RoutingIsMinimalButAtTheBoundary | shared/database.py:103-123 | for a range that is not empty a database is queried if and only if it can hold a match, or it is the live one and the range ends at the cutoff |
| Router.BuildQueryParams | shared/database.py:299-309 | the filter's parameters, then the cutoff, once per queried database, archive first |
| Router.BuildUnionSql | shared/database.py:243-280 | for every content, every filter and every target pair the query yields the targeted rows of archive-before-cutoff plus live-from-cutoff that the filter selects; the parameters match the placeholders in number and order; doubled if and only if both sides are queried |
| Router.UnionReads | shared/database.py:246-272 | the same of the query body, including a missing archive file and no target at all |
| Router.LogicalHasDistinctKeys | shared/database.py:240-241 | the source column makes sort keys distinct over both databases when ids are unique in each |
| Records.CursorRoundTrip | api/routers/records.py:35-58 | decoding an encoded cursor gives back the row's date, source and id |
| Records.CursorShape | api/routers/records.py:43-58 | a cursor is accepted if and only if it is an object with a text date, a text source and an integer id, true and false counting as 1 and 0; what it stands for |
| Records.RangeIsDays | api/routers/records.py:157-158 | the two text bounds select exactly the rows dated on the days asked for, both included |
| Records.AddClause | api/routers/records.py:167 | joining one more clause with AND and appending its parameters selects the conjunction |
| Records.SearchFinds | api/routers/records.py:103-109 | the search clause selects rows whose code, name or lot contains the text, NULL never |
| Records.CursorClauseIsAfter | api/routers/records.py:131-141 | the six-parameter cursor clause is true of exactly the rows listed after the cursor |
| Records.BuildRecordsFilters | api/routers/records.py:96-143 | for every combination of filters the clauses and parameters select exactly the rows asked for, cursor included; all parameters can be bound if and only if the quantities and the cursor id fit into 64 bits |
| Paging.GetRecords | api/routers/records.py:157-206 | in calendar days: 400 if and only if the range is reversed, 500 if and only if the last day has no successor or an integer the query needs is beyond 64 bits; otherwise the page of the full sorted result of the days asked for, both included, that the cursor or offset points at: its first `limit` rows, with `has_more` and `next_cursor` if and only if rows are left out, and `count` |
| Paging.FullResultIs | api/routers/records.py:157-162 | the full result in calendar days is that of the text bounds the code passes on |
| Paging.QueriedIsQueriesDays | shared/database.py:103-123 | some database is queried if and only if the days reach 31 December 2025, or begin before 2026 and there is an archive |
| Paging.SelectRows | api/routers/records.py:162-189 | the query raises exactly on an integer out of range, and else returns the first limit+1 of the rows that remain |
| Paging.QueryYieldsRemaining | api/routers/records.py:162-189 | routing and the cursor clause together cut nothing out of the sorted full result but what lies before the cursor |
| Paging.PageFromRemaining | api/routers/records.py:191-199 | the extra row decides `has_more` and is not part of the page |
| Paging.AllMatchesOrdered | api/routers/records.py:175 | the full result is strictly ordered, later dates first, on one date live before archive and then descending ids, and every row of it has a date |
| Paging.CursorLeavesTail | api/routers/records.py:131-141 | any decoded cursor, also of a row that does not exist, leaves a tail of the full result |
| Paging.NextPageContinues | api/routers/records.py:196-199 | the next page starts exactly where this one ended |
| Paging.NextCursorIsInRange | api/routers/records.py:196-199 | with stored ids the request with the next cursor binds no integer out of range if this one did not |
| Paging.WalkListsEverything | api/routers/records.py:171-199 | following `next_cursor` ends, lists each remaining row once and in order, all pages but the last full |
| Paging.FollowingCursorsYieldsTheFullResult | api/routers/records.py:171-199 | from the first page on, the pages together are the full sorted result of the filter |
| Aggregation.MergedAt | shared/database.py:343-368 | what the merge gives for one group, from the group's rows on the two sides |
| Aggregation.MergeIsWholeButAverages | shared/database.py:343-368 | SUM, COUNT and MAX with NULLs ignored merge to those of the whole table, group by group |
| Aggregation.MergeIsWhole | shared/database.py:343-368 | with averages too, when no group lies on both sides |
| Aggregation.SplitAverageIsTrueExactlyWhen | api/routers/summary.py:47-52 | the exact condition under which the average of two averages is the average |
| Aggregation.MergeIsWholeExactlyWhen | shared/database.py:343-368 | the merged result, averages included, is that of the whole table if and only if every group meets that condition |
| Aggregation.SharedEntry | api/routers/summary.py:55 | two rows share an entry if and only if they agree in month and item code, as far as these are grouped by |
| Aggregation.GroupByReports | api/routers/summary.py:179-195 | every row has an entry, and an entry's name is a greatest name of its rows or missing with all of them, its total the sum of the known quantities, its count the number of rows, its average that sum over the number of known quantities |
| Aggregation.ReportsLikeDirect | shared/database.py:343-368 | what agrees with the direct grouping but for averages reports the same of the rows, and its averages are true if and only if it is the direct grouping |
| SummaryRoutes.BuildAggregationSql | shared/database.py:338-368 | for every content the two-level query yields the merge of the per-side groups of the rows the filter selects, with matching parameters |
| SummaryRoutes.AggregationReads | shared/database.py:343-368 | the same of the query itself, a skipped side counting as empty |
| SummaryRoutes.CalendarDatesAreAligned | shared/config.py:36-37 | with calendar dates no archived row carries the cutoff's month, because the cutoff is the first of its month |
| SummaryRoutes.SplitMonthIsCutoffMonth | api/routers/summary.py:45 | two texts of one month on the two sides of the cutoff are of the cutoff's month, whatever else they are |
| SummaryRoutes.MonthGroupsAreOneSided | api/routers/summary.py:43-57 | with an aligned archive no month or month-and-item group is split |
| SummaryRoutes.RoutedAnswer | api/routers/summary.py:28-60 | routing, per-side grouping and merging report exactly on the rows asked for: greatest name, sum and count of every entry always, averages of month groups if and only if every group's average survives, as with an aligned archive |
| SummaryRoutes.MonthlyTotal | api/routers/summary.py:26-63 | the monthly totals of a date range are those of the whole table, their averages if and only if every group's average survives |
| SummaryRoutes.GetMonthlyTotal | api/routers/summary.py:66-83 | the route, in calendar days: 400 if and only if the range is reversed, 500 if and only if the last day has no successor; otherwise the monthly totals of the days asked for, both included |
| SummaryRoutes.SummaryByItem | api/routers/summary.py:86-127 | the item totals of a date range, optionally of one item, report on exactly those rows of the whole table: greatest name, sum and count |
| SummaryRoutes.GetSummaryByItem | api/routers/summary.py:130-151 | the same of the item totals; none when a date is left empty |
| SummaryRoutes.MonthlyByItem | api/routers/summary.py:154-201 | the month-and-item names, sums and counts are those of the whole table for every month parameter but 9999-12 and 2026-01, whatever the databases hold, the averages if and only if every group's average survives; with an aligned archive everything is, for every month but 9999-12 |
| SummaryRoutes.NextMonthReachesCutoff | api/routers/summary.py:160-161 | from 2026-01 on, the first of the next month is not before the cutoff, unless the year gets a fifth digit |
| SummaryRoutes.MonthRoutingIsLosslessExactlyWhen | api/routers/summary.py:158-163 | routing a month loses no row of any content if and only if the month is neither 9999-12 nor 2026-01 |
| SummaryRoutes.CutoffMonthIsKeptExactlyWhenAligned | api/routers/summary.py:158-161 | routing 2026-01 loses no row of a given content if and only if no archived row carries that month |
| SummaryRoutes.AlignedRoutingIsLosslessExactlyWhen | api/routers/summary.py:158-163 | with an aligned archive 9999-12 is the only month that loses rows |
| SummaryRoutes.UnalignedAverageCanBeWrong | api/routers/summary.py:47-52 | a database with one misdated archived row whose routed monthly totals report an average of 15 where it is 20 |
| Backoff.DelayBounds | api/notifications/backoff.py:41-51 | a delay is given if and only if attempts remain, and lies in (0, 3600] for every draw |
| Backoff.ScheduledDelay | api/notifications/backoff.py:14-51 | without Retry-After the delay stays within 20 percent of its base: within [0.8, 1.2), [4, 6), [20, 30), [100, 150) seconds, and [500, 750) from the fifth attempt on |
| Backoff.DelaysFillTheirRange | api/notifications/backoff.py:48-51 | the delays that draws give are exactly those of that range |
| Backoff.DelayIsWithinSchedule | api/notifications/backoff.py:41-51 | the delay is within 20 percent of a positive Retry-After, capped at an hour, or else of 1, 5, 25, 125, 625 seconds, and within the hour |
| Backoff.DelaysIncrease | api/notifications/backoff.py:14-17 | the jitter ranges of the first five delays are disjoint and increasing |
| Backoff.TotalWaitBound | api/notifications/backoff.py:41-51 | the whole wait of a delivery is within 20 percent of the sum of its bases |
| Backoff.FiveAttemptsWait | api/notifications/backoff.py:14-17 | five attempts wait at most 1.2 (1 + 5 + 25 + 125) seconds |
| Backoff.RetryAfterIsHonouredExactlyWhen | api/notifications/backoff.py:43-51 | a positive upstream Retry-After is waited out if and only if the draw is at least one half and it is at most an hour |
| Queue.JudgeFits | api/notifications/worker.py:138-184 | what a verdict can be: a retry only within the attempts and with a time, `dead` only when they are used up, nothing else with a time |
| Queue.JudgeSettles | api/notifications/worker.py:138-184 | which verdict an outcome gets: success if and only if the send was good; failure if and only if it was not and the status is 400 to 499; else another attempt if and only if any is left, due after the scheduled wait; else dead |
| Queue.RecordHeadKeepsInv | api/notifications/deliveries_repo.py:180-210 | recording keeps the invariant of rows, send counts and held claims |
| Queue.ClaimKeepsInv | api/notifications/deliveries_repo.py:132-177 | claiming keeps it |
| Queue.ResetKeepsInv | api/notifications/deliveries_repo.py:314-335 | a manual or bulk retry at any moment, also of a row the batch holds, keeps it |
| Queue.RecoverKeepsInv | api/notifications/deliveries_repo.py:227-245 | recovery outside a batch keeps it |
| Queue.StepKeepsInv | api/notifications/worker.py:102-136 | every step of the protocol keeps it |
| Queue.ReachableStatesAreSound | api/notifications/worker.py:138-184 | in every reachable state: 1 to max attempts; dead means all used; retrying means at least 2; a next time if and only if open; sends since the last reset at most max plus lost recordings; queued and in-flight rows are due; a retrying row waits at most an hour from its last attempt |
| Queue.SendsAreBounded | api/notifications/worker.py:116-184 | over any run without a reset of it a delivery is sent at most as often as attempts are allowed, plus the sends whose result was lost to a crash or a failed recording |
| Queue.CountsAreSends | api/notifications/worker.py:116-135 | the counts of sends and of lost results are those of the run |
| Queue.HeldRowsAreLeftAlone | api/notifications/worker.py:102-136 | a batch holds distinct ids, and no recovery or claim runs and no row changes while the batch holds it, except by the API's reset or delete |
| Queue.HeldRowStaysTheSame | api/notifications/worker.py:102-136 | over any run in which the batch holds a delivery throughout its row stays exactly as it was, unless the API resets it or deletes its webhook |
| Queue.LeaseFreesOrphans | api/notifications/deliveries_repo.py:214-240 | an orphan whose lease passed is queued and due after the next tick begins, attempt kept; no other row changes |
| Queue.NoClaimOutlivesItsLease | api/notifications/worker.py:102-108 | in every run, once a tick has recovered at some time, every row in flight at any later point was claimed less than the lease before that time |
| Queue.RestartFreesEverything | api/notifications/worker.py:65-76 | a crash and a restart whose recovery goes through leave no row in flight and change no other row; a restart whose recovery fails changes no row |
| Queue.BatchGivesRowsBack | api/notifications/deliveries_repo.py:254-273 | a release hands every held row back, due at once; a recording takes its row out of flight |
| Queue.ResetStartsOver | api/notifications/deliveries_repo.py:314-335 | a single or bulk retry gives the row all its attempts again, due at once, its counts cleared; no other row changes |
| Queue.EnqueuedIsDue | api/notifications/deliveries_repo.py:95-120 | an enqueued delivery is a new row with all its attempts, due at once; no other row changes |
| Queue.NoOpenRowIsStuck | api/notifications/worker.py:65-76 | from every such state, even if the process dies there, a restart, the longest wait, one tick and one good send deliver any open row of an active webhook |
| Queue.RetriedRowIsDelivered | api/notifications/deliveries_repo.py:314-441 | a delivery that is dead or failed can be delivered once it is retried, singly or in bulk |
| Queue.StepDrains | api/notifications/worker.py:160-184 | without new work a step lowers the sum of remaining attempts by what it records |
| Queue.QueueDrains | api/notifications/worker.py:160-184 | over any run without new work the recordings are bounded by that sum, which never goes below zero |
| Queue.DrainedQueueHasNoOpenRow | api/notifications/worker.py:138-184 | when the sum is used up, no delivery is open |
| DeliveryStore.InsertDueSorts | api/notifications/deliveries_repo.py:146 | the claim order: next attempt time with NULL first, then id |
| DeliveryStore.SelectDue | api/notifications/deliveries_repo.py:139-146 | the due rows, all of them, in claim order |
| DeliveryStore.FirstOfDue | api/notifications/deliveries_repo.py:146-147 | LIMIT keeps the first due rows: any due row left out comes after all that were taken |
| DeliveryStore.FirstDueTakesFirst | api/notifications/deliveries_repo.py:139-147 | on statuses, times, ids and webhooks: only waiting rows of active webhooks whose time has come are taken, and one left out is not to be sent before any that is taken |
| DeliveryStore.EffectiveStatuses | api/notifications/deliveries_repo.py:345-354 | `dead` if and only if a text, stripped, is `dead` up to case, `failure` likewise, nothing else; each once, in the order of first mention |
| DeliveryStore.Store.constructor | api/notifications/deliveries_repo.py:95-120 | an empty table |
| DeliveryStore.Store.EnqueueDelivery | api/notifications/deliveries_repo.py:95-120 | one new queued row with attempt 1, due now; refused for an unknown webhook |
| DeliveryStore.Store.ClaimDueDeliveries | api/notifications/deliveries_repo.py:132-177 | claims the first due rows, marks exactly those in flight as of now, and reports them with their attempt numbers; nothing on a database error |
| DeliveryStore.Store.MarkInFlight | api/notifications/deliveries_repo.py:151-171 | the update loop marks and reports every selected row |
| DeliveryStore.Store.RecordAttempt | api/notifications/deliveries_repo.py:190-210 | writes status, attempt and next time of one row, or nothing when it is gone; raises, with nothing written, on a database error |
| DeliveryStore.Store.RecoverStaleInFlight | api/notifications/deliveries_repo.py:227-251 | requeues exactly the rows in flight since the cutoff or before, and counts them; nothing on a database error |
| DeliveryStore.Store.ReleaseClaims | api/notifications/deliveries_repo.py:254-269 | requeues exactly the listed rows still in flight; nothing on a database error |
| DeliveryStore.Store.RequeueDelivery | api/notifications/deliveries_repo.py:314-335 | resets one row; false if and only if it does not exist |
| DeliveryStore.Store.RequeueDeliveries | api/notifications/deliveries_repo.py:403-441 | resets the oldest rows whose status and webhook the request names, only `dead` and `failure`, up to the limit within 1 to 5000; the ids returned are the rows changed, and a match left out is newer; nothing on a database error |
| DeliveryStore.Store.RemoveWebhook | api/notifications/webhooks_repo.py:166-175 | deletes the webhook and exactly its deliveries |
| DispatchWorker.RunThenStep | api/notifications/worker.py:187-194 | a run of the protocol can be continued by any enabled step |
| DispatchWorker.TurnRuns | api/notifications/worker.py:116-135 | sending, waiting and recording one claim are three protocol steps, with the verdict on its outcome recorded |
| DispatchWorker.RaiseRuns | api/notifications/worker.py:187-193 | a claim whose recording raises is three protocol steps that leave the table as it was and the worker between ticks |
| DispatchWorker.StopRuns | api/notifications/worker.py:111-115 | shutdown seen mid-batch is a release of the claims left |
| DispatchWorker.TickBegins | api/notifications/worker.py:104-108 | recovery and claim of a tick are two protocol steps |
| DispatchWorker.Worker.constructor | api/notifications/worker.py:39-62 | the configuration is kept |
| DispatchWorker.Worker.Start | api/notifications/worker.py:65-76 | a second start does nothing; a real one leaves no row in flight if its recovery goes through, and starts anyway if not |
| DispatchWorker.Worker.Finalize | api/notifications/worker.py:138-184 | exactly one recording, and the row then has what its outcome owes it: status, attempt number, and time of the next attempt within the schedule; no other row changes; nothing changes when the database raises |
| DispatchWorker.Worker.DispatchBatch | api/notifications/worker.py:109-135 | the loop over a batch is a run of the protocol that finishes the batch, hands the rest back at shutdown, or is abandoned by a recording that raises |
| DispatchWorker.Worker.TickOnce | api/notifications/worker.py:102-136 | a tick, whichever of its transactions fail, is a run of the protocol whose final table is the store's contents; it claims the first due rows and returns the number finalized, or raises with a failed recording |
| Materials.DocDateIs | api/materials/store.py:56-69 | a document has a business date if and only if its first eight characters spell that calendar date in the digits strptime takes |
| Materials.DocDateReads | api/materials/store.py:56-69 | for any text: the business date is the date read from the first eight characters if they match `%Y%m%d` and it is a calendar date, and missing otherwise |
| Materials.AsciiDocDateIs | api/materials/store.py:56-69 | for ASCII digits: if and only if they are the date |
| Materials.KeyIsLine | api/materials/store.py:241-246 | two rows have one key if and only if document and sequence number are equal, an absent number counting as 0 |
| Materials.ExecuteOne | api/materials/store.py:337-363 | one conflict-aware insert: new row, changed row with first reception kept, or nothing; counted if and only if it wrote |
| Materials.ExecuteMany | api/materials/store.py:368-371 | the statement over distinct keys puts every key, and total_changes grows by the keys written |
| Materials.Store.LookupTombstones | api/materials/store.py:297-310 | the 500-wide chunks together find exactly the tombstoned documents |
| Materials.Store.LookupExisting | api/materials/store.py:320-332 | the 500-wide chunks together find exactly the stored keys of the documents |
| Materials.Store.Dedupe | api/materials/store.py:288-292 | the last row of every key, each key once |
| Materials.Store.FilterTombstoned | api/materials/store.py:297-312 | drops exactly the keys of tombstoned documents |
| Materials.Store.CountInserted | api/materials/store.py:316-332 | counts exactly the keys not stored |
| Materials.Store.WriteAll | api/materials/store.py:364-371 | writes the batch into one table and nothing else |
| Materials.Store.UpsertMaterials | api/materials/store.py:285-379 | for any batch size: the last row of every line is stored column by column with its business date, unless its document is tombstoned, and nothing else changes; the counters count lines as upserted or skipped, new, and changed in some column; state and counters equal the one-pass specification |
| Materials.UpsertStoresBatch | api/materials/store.py:334-365 | the one-pass specification stores the batch line by line, received_at kept, updated_at moved if and only if some column changed |
| Materials.CountsAreLines | api/materials/store.py:316-379 | its counters count the lines of the batch |
| Materials.Store.DeleteDocument | api/materials/store.py:436-445 | removes exactly the document's rows, counts them, and leaves a tombstone of now if and only if there were any |
| Materials.Store.RestoreDocument | api/materials/store.py:457-463 | removes the tombstone only |
| Materials.UpsertedRow | api/materials/store.py:334-365 | row by row: last row of the batch wins, tombstoned and unmentioned rows untouched, received_at kept, updated_at moves if and only if the content changed |
| Materials.LastIsLast | api/materials/store.py:288-291 | the winning row is the one no later row of its key follows |
| Materials.CountsAddUp | api/materials/store.py:366-379 | upserted plus skipped are the distinct keys; inserted plus updated at most upserted |
| Materials.RepostingChangesNothing | api/materials/store.py:279-283 | posting the batch again at any time changes no row and reports 0 inserted, 0 updated |
| Materials.StepKeepsBuried | api/materials/store.py:297-314 | every operation keeps "a tombstoned document has no rows" |
| Materials.TombstonedDocumentsHaveNoRows | api/materials/store.py:436-445 | and so does every history of them |
| Materials.OtherTablesAreUntouched | api/materials/store.py:170-180 | histories on other tables change neither a table nor its tombstones |
| Materials.DeletedDocumentReturnsOnlyByRestoreAndResend | api/materials/store.py:456-463 | a deleted document has rows again only after a restore of it followed by an upsert of it |
| Materials.DeletedStaysAway | api/materials/store.py:436-463 | a document that is deleted has no rows, and over any later history has some only after a restore followed by an upsert of it |
| Automation.RunStore.constructor | api/materials/runs.py:62-71 | an empty run history |
| Automation.RunStore.StartRun | api/materials/runs.py:62-71 | the run is under an id never used before and active in its table; no other run changes; it is the only active one if there was none |
| Automation.RunStore.FinishRun | api/materials/runs.py:74-89 | the run is not active any more, so the guard is free if it was the only one; no other run changes, an unknown id none |
| Automation.RunStore.ReapStaleRunningAll | api/materials/runs.py:92-130 | fails exactly the automation runs of all datasets that have been running for six hours |
| Automation.RunStore.ActiveAutomationDataset | api/materials/runs.py:133-143 | none if and only if no dataset has an active automation; otherwise one that has |
| Automation.RunStore.TriggerAutomation | api/materials/automation.py:96-127 | starts a run if and only if enabled, the bot exists, and every active run is stale; each error, and what it leaves behind |
| Automation.ReapedActive | api/materials/runs.py:102-113 | what is active after reaping was active and not stale |
| Automation.StepKeepsInv | api/materials/automation.py:107-121 | each statement of any trigger and any worker completion keeps the guard's invariant |
| Automation.AtMostOneAutomationRuns | api/materials/automation.py:107-121 | under every interleaving at most one automation runs over all datasets |
| Automation.AcquireAfterStaleWindow | api/materials/automation.py:107-112 | taking the lock when every active run is stale puts a trigger on the way to start |
| Automation.StaleRunsDoNotBlockTriggers | api/materials/automation.py:107-121 | such a trigger does start a run before it gives the lock back, whatever workers, backups and other triggers do, unless a statement of a trigger raises |
| Automation.TriggerRuns | api/materials/automation.py:107-121 | a trigger that nothing interrupts is a run of the protocol that takes the free lock, frees it, and leaves just what `RunStore.TriggerAutomation` leaves |
| Automation.TriggerAfterStaleWindow | api/materials/runs.py:92-130 | whatever run is never finished, a trigger six hours later starts a new one |
| Automation.TriggerAfterFinish | api/materials/automation.py:107-121 | once the active run is finished a trigger starts the next at once |
| RateLimiting.NoWindowOverfull | shared/rate_limiter.py:79-93 | admissions spaced as the limiter spaces them overfill no window, wherever it lies |
| RateLimiting.WaitIsLeast | shared/rate_limiter.py:140-142 | the announced wait lies in [1, w] and is the least whole number of seconds after which a lone retry is admitted |
| RateLimiting.TrackCount | shared/rate_limiter.py:84-89 | the length of the trimmed deque is the count over the full history |
| RateLimiting.TrackAdmit | shared/rate_limiter.py:89-91 | recording an admission keeps deque and history in step |
| RateLimiting.TrackForget | shared/rate_limiter.py:173-177 | a deque whose newest entry is expired stands for an empty window, and can be forgotten |
| RateLimiting.AllForget | shared/rate_limiter.py:168-178 | forgetting expired addresses changes no address's standing |
| RateLimiting.Sweep | shared/rate_limiter.py:162-180 | exactly the idle ones among the first max_ips addresses go |
| RateLimiting.RateLimiter.constructor | shared/rate_limiter.py:60-65 | an empty history |
| RateLimiting.RateLimiter.Touch | shared/rate_limiter.py:80-84 | looking up an address creates its deque and changes nothing else |
| RateLimiting.RateLimiter.Expire | shared/rate_limiter.py:84-86 | the front of the deque is live, the history unchanged |
| RateLimiting.RateLimiter.IsAllowed | shared/rate_limiter.py:79-93 | admits if and only if the full admission history in (now-w, now] is below the limit, and records exactly then |
| RateLimiting.RateLimiter.Remaining | shared/rate_limiter.py:107-114 | the limit minus that count, at least 0, recording nothing |
| RateLimiting.RateLimiter.RetryAfter | shared/rate_limiter.py:128-144 | 0 for an empty window, else in [1, w]; after a denial the least wait, if and only if the limit is positive |
| RateLimiting.RateLimiter.Cleanup | shared/rate_limiter.py:158-180 | removes exactly the idle among the first max_ips addresses; the history, which every later decision depends on, is unchanged |
| RateLimiting.RateLimiter.GetStats | shared/rate_limiter.py:189-207 | the active addresses and the live requests are those of the full admission history |
| RateLimiting.RateLimiter.NeverOverLimit | shared/rate_limiter.py:79-93 | no window of the configured length, at any time, holds more admissions than the limit |
| ApiCache.Cache.GetDbVersion | shared/cache.py:46-76 | the remembered version while it is less than a second old at the clock reading, else the current one, remembered |
| ApiCache.Cache.StoreResult | shared/cache.py:134-139 | an entry that appeared meanwhile wins over the computed result |
| ApiCache.Cache.CallEndpoint | shared/cache.py:116-150 | an undisturbed call is a run of the protocol; it answers its query, from a recent content if versions identify contents |
| ApiCache.Cache.Clear | shared/cache.py:156-159 | empties the cache |
| ApiCache.StepKeepsInv | shared/cache.py:116-150 | every step of any thread, eviction, content change and passing of time keeps the invariant of keys and entries |
| ApiCache.ResultsAreRecent | shared/cache.py:116-150 | if versions identify contents, then under every interleaving a call returns the answer to its own query from a content current less than a second before its clock reading, or later |
| ApiCache.AlwaysRecentExactlyWhenVersionsIdentify | shared/cache.py:63-76 | for any version function, results are recent in every run if and only if no two contents share a version |
| ApiCache.RecentWhenFormedExactlyWithoutWaiting | shared/cache.py:46-60 | less than a second before its key was formed if and only if it did not wait for the lock |
| ApiCache.RacingCallsAgree | shared/cache.py:134-139 | while an entry is not evicted, every call on its key that finishes returns the entry's value |
| Cooldown.StateFile.constructor | api/anomaly/store_state.py:27-39 | the saved cooldowns, or none when the file cannot be read |
| Cooldown.StateFile.FilterNew | api/anomaly/store_state.py:71-77 | the findings outside their cooldown, in order |
| Cooldown.StateFile.MarkEmitted | api/anomaly/store_state.py:80-85 | records the time for exactly the given keys |
| Cooldown.StateFile.Prune | api/anomaly/store_state.py:88-94 | drops exactly the entries of the given age |
| Cooldown.EmitNew | api/anomaly/detector.py:192-226 | one scan, whether it can read and write the state or not: what is emitted, and the state left on disk |
| Cooldown.Deliver | api/anomaly/detector.py:196-208 | only successful emissions are counted as emitted |
| Cooldown.EmissionsKeepTheCooldown | api/anomaly/detector.py:192-214 | two successful emissions of a key, the first saved and the last by a scan that reads the state, are at least the cooldown apart, whatever the scans between find, emit or fail at, unless one overwrites a state it could not read |
| Cooldown.CooldownHoldsExactlyWhenSaved | api/anomaly/detector.py:192-214 | after an emission the cooldown is kept over every such later run if and only if the scan's state was saved, or the unread file already held an emission at that time or later |
| Cooldown.UnsavedEmissionIsForgotten | api/anomaly/store_state.py:55-56 | after a failed save a later reading scan finds the key fresh at once, unless the emitting scan had not read the file and it still holds a running cooldown |
| Cooldown.UnreadStateIsForgotten | api/anomaly/store_state.py:27-39 | a scan that cannot read the state finds everything fresh, and its save drops every cooldown but its own |
| Cooldown.RunKeepsPast | api/anomaly/detector.py:210-214 | every run keeps the file to times of past scans |
| Cooldown.PruningIsInvisible | api/anomaly/detector.py:210-214 | over every run of scans, with any failures to emit, read or write, each scan sees and emits the same as in the run that never prunes |
| Cooldown.FailedEmissionIsRetried | api/anomaly/detector.py:200-207 | after any run from an empty state, a fresh finding not emitted is fresh again at the next scan, unless the scan could neither read nor write the file and the next one reads there a running cooldown |
| Cooldown.ScanKeysAreDistinct | api/anomaly/detector.py:116-149 | one scan never reports a key twice |
| Cooldown.CollectedAre | api/anomaly/rules.py:93-140 | a scan reports exactly its volume finding, if any, and the items idle for the given days or longer |
| Cooldown.OneEmissionPerScan | api/anomaly/detector.py:196-208 | one scan never emits a key twice |
| DependencyClosure.ReachableStep | scripts/freeze_lock.py:49-53 | an applicable installed requirement of a reachable package is reachable |
| DependencyClosure.ClosedHoldsChain | scripts/freeze_lock.py:44-54 | a closed set that holds the installed roots holds every chain |
| DependencyClosure.PushRequirements | scripts/freeze_lock.py:49-53 | pushes exactly the requirements whose marker is true |
| DependencyClosure.Closure | scripts/freeze_lock.py:40-54 | exactly the installed packages reachable from the roots through installed packages; it terminates |
| PyText.StripStrips | portal_settings_dialog.py:45 | strip returns the longest part that neither starts nor ends with space |
| PyText.SpacesAre | portal_settings_dialog.py:45 | what counts as space, character by character |
| EnvFile.ReadEnv | portal_settings_dialog.py:39-49 | the mapping that the lines of the text assign, later lines winning |
| EnvFile.LineBreaksAreRead | portal_settings_dialog.py:43-45 | each of the three line breaks is read as one newline, whatever comes after it |
| EnvFile.WriteEnv | portal_settings_dialog.py:52-78 | known keys rewritten in place, other lines kept, new keys appended in order |
| EnvFile.RewriteExisting | portal_settings_dialog.py:58-70 | the pass over the file and the keys it found |
| EnvFile.AppendNew | portal_settings_dialog.py:72-75 | exactly the keys the file did not have |
| EnvFile.WrittenSplits | portal_settings_dialog.py:77-78 | with clean data the written text splits into exactly the lines written |
| EnvFile.ParsedIsClean | portal_settings_dialog.py:45-48 | whatever a line holds, the key and value read from it are clean |
| EnvFile.RoundTripExactlyWhenClean | portal_settings_dialog.py:39-78 | for every file, reading after writing gives the old mapping overridden by the data if and only if the data is clean |
| EnvFile.OtherLinesSurvive | portal_settings_dialog.py:67-70 | comments, blanks and other assignments keep their place and text |
| EnvFile.KnownKeysAreRewritten | portal_settings_dialog.py:61-66 | a line that assigns a key of the data becomes `key=value`, in its place |
| EnvFile.NewKeysAreAppended | portal_settings_dialog.py:72-78 | behind the file's lines come the keys it lacked, in order, as `key=value`, and nothing else |
| EnvFile.SecondWriteChangesNothing | portal_settings_dialog.py:52-78 | a second write of the same data leaves the text as it is |

## Left out

- SQLite itself: connections, WAL, PRAGMAs, thread-local handles, ATTACH; a transaction is atomic. A database error is a
  parameter of the delivery store's methods, and a step of the protocols of the queue and of the automation guard; the
  methods of `Automation.RunStore` and `Materials.Store` are those of calls that do not raise.
- SQLite's error for a SUM beyond 64 bits: sums are unbounded.
- Text that is not Unicode scalar values (a lone surrogate cannot be bound) or holds a NUL (LIKE stops there).
- HTTP, signing, pydantic and FastAPI: a send is any outcome; query parameters arrive parsed, dates as calendar dates.
- The base64 and JSON text of the cursor: decoding starts at the JSON value, with the shape check.
- Rounding of floats: the backoff, the limiter, the averages and the cooldowns use reals.
- The order of summaries (`ORDER BY total DESC LIMIT n`): groups are a map.
- `queue_stats` and the list queries: read-only counting.
- `_migrate_table`: adding columns and rebuilding the key once would add only easy claims.
- `get_item_records`, `list_items` and an `order_by` other than the default.
- The synchronous v1 delivery path, which neither loops nor retries.
- Response fields of deliveries (status code, body, error, duration): written, never read by the queue.
- Materials.KeyOf: a sequence number is an integer or absent, as the request schema says; beyond 64 bits it cannot be bound, which is left out.
- Materials.DocDateIs: years before 1000 are written with four digits; `strftime("%Y")` pads them on some platforms only.
- SummaryRoutes.MonthlyByItem: the month parameter is two numbers of four and two ASCII digits.
- DispatchWorker.Worker.Finalize: the next attempt's time and the recording's time are one clock reading; the code takes two.
- Upserts, deletes and restores of material documents run one after another.
- Scans of the anomaly detector run one after another; stale findings keep the query's order, as only their keys matter.
- The cache's expiry between `in` and `[]` of the TTL dictionary, its size limit and its 300 seconds: any entry may be evicted at any step.
- SQLite's limit on the length of LIKE patterns.
- Newline translation when a text file is written on Windows.
- GUI, watchers, backup, logging, metrics, auth and audit.
