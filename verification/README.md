# Oban job engine: verified model

A Dafny model of a background job system written in Go: the cron language and its
searches, the job store (in memory and in SQL), the engine that runs jobs
concurrently, the synchronous `Drain`, the periodic schedulers, the rate limiter and
the backoff policies. Each module follows one part of the program.

| module | models |
|---|---|
| `Calendar` | instants, and the proleptic Gregorian calendar of ISO 8601 as package `time` computes it |
| `Cron`, `CronLaws`, `CronHorizon` | `Matches`, `Next`, `Prev`, `Upcoming`; when a search cannot run out |
| `CronSteps`, `CronParser`, `CronGrammar`, `CronLanguage` | parsing, including the 64-bit step loop; what a spelled expression means |
| `CronRule` | the documented day rule against the coded one |
| `Jobs`, `StoreSpec`, `Store`, `StoreLaws` | jobs; the store's transitions as functions; the store class proved against them; what the transitions mean in the fields of jobs |
| `OwnerRuns` | whole runs in which a fetched job is finished by the runner that holds it |
| `SqlStore` | rows and guarded statements, and their relation to the in-memory store |
| `Engine`, `EngineDispatch`, `EngineStop` | queues, slots, attempts, `Start` and `Stop` as interleaved atomic steps; what dispatch fetches and launches; why `Stop` returns |
| `Drain` | the synchronous loop, its termination measure and its tally |
| `HeapOrder`, `Periodic`, `CronPlugin` | the heap of fire times and the two loops that run on it |
| `JsonStrings`, `UniqueKeys`, `Insert` | unique keys and rich inserts |
| `RateLimit`, `Backoff` | the token bucket; the Fibonacci and linear delays |
| `GoStrings`, `Int64`, `Division`, `Options`, `Sums` | string, integer and summation helpers |

How the parts build on one another: the loops of `Cron` are proved equal to a
minute-by-minute search, whose laws then serve the schedulers. The methods of the
store class are proved equal to transition functions; runs of those functions carry
the ownership invariant; every interleaving of the engine and every run of `Drain` is
shown to be such a run, and so is what the SQL store does in step with the other one.

Methods that hand back an error or a nil in Go return an `Option`, a `Result` or a
flag. Clocks, worker outcomes, the backoff policy used by `Drain`, map iteration order
and the canonical form of job arguments are inputs or free choices.

## Findings

Where code and documentation disagree the model follows the code.

- Day of month and weekday must both match (`cron.go:265-269`); `README.md:157-158`
  promises that either is enough when both are restricted. For an accepted expression
  the code keeps that promise if and only if one of the two fields is a star, or every
  weekday and every day of every allowed month is allowed (`CronRule.ParsedRule`).
  `0 0 13 * 5` fails it at midnight of Tuesday, 1970-01-13 (`CronRule.FridayExpression`).
- A step close to 2^63 wraps the loop variable of `parsePart` (`cron.go:201-205`) and
  sets bits below the range: the minute part `3/9223372036854775807` also fires at
  minute 1 (`CronLanguage.WrapExample`). Masks are exact if and only if
  `lo + 2*step < 2^64` (`CronParser.PartExact`).
- `Prev` starts one minute before the truncated time (`cron_extra.go:99`), so for a
  time inside a matching minute it skips that minute, although it began strictly before
  (`CronLaws.PrevCorrect` gives the exact condition, `CronLaws.PrevSkipsOwnMinute` an
  input).
- With every weekday allowed, `Next` returns the zero time for some start if and only
  if only February 29 is left: from 1896-03-01 the five-year window holds no leap day
  (`CronHorizon.LeapDayGap`).
- `Oban.fireDue` puts an entry whose `Next` is zero back as due (`oban.go:403-404`): if
  one is due, every turn of the loop ends with a due root and such an entry
  (`CronPlugin.EngineFireRoot`), so the loop comes to an end if and only if there is none
  (`CronPlugin.EngineFireDue`). The accepted expression `0 0 29 2 *` gets there after
  1896-03-01 (`CronLanguage.LeapDayExpression`). `CronPlugin` drops such an entry
  (`plugins.go:422-424`).
- `Drain` has no bound of its own on rounds (`drain.go:152-173`). It returns from a
  given store whatever workers, clocks and context do if and only if it is not recursive
  or there is no job it could fetch (`Drain.AlwaysEnds`), and from every store if and
  only if it is not recursive (`Drain.EndsEverywhere`). In a given run it returns if and
  only if the workers snooze a bounded number of times (`Drain.DrainEnds`); workers that
  always snooze keep it going for ever (`Drain.SnoozesForever`).
- `InMemoryStore.Complete`, `Retry` and `Discard` have no executing guard
  (`store.go:206-248`), although `inmemory_caps.go:33-36` speaks of one. The SQL store
  has it, and clears the last error where the other keeps it. `SqlStore.CompleteAgrees`,
  `SqlStore.FailureAgrees` and `SqlStore.SilentFailureAgrees` say exactly when that makes
  a difference, and `SqlStore.StoresInStep` that it makes none in runs where
  only owners finish jobs.
- A job executing without an attempt time would be rescued by the in-memory store and
  never by the SQL store (`SqlStore.RescueAgrees`). Only a fetch whose clock reads the
  zero time leaves such a job: after every run with nonzero clocks both stores rescue
  alike (`SqlStore.RescueInStep`).
- `FindConflict` returns a clone (`inmemory_caps.go:210`), so the scalar replacements
  of `insert.go:222-232` reach the returned job and not the in-memory store
  (`Insert.Insert`). The two are the same if and only if the incoming job agrees with the
  stored one on every listed field (`Insert.ReplaceShows`); `Insert.ReplaceLost` is an
  input where they are not.
- `LinearBackoff.Next` is not `min(Base + Step*(n-1), Max)` once the exact sum reaches
  2^64 and wraps to a small positive value (`Backoff.LinearOverflow`).
- Looking at the rate limiter leaves a later call's verdict alone, for every limiter and
  every amount, if and only if the clock has not run backwards in between
  (`RateLimit.LookingExact`).

## Model

| member | source | states |
|---|---|---|
| `Calendar.CivilNumber` | cron.go:236-247 | dates counted day by day and day numbers counted by whole years and months agree, before 0001-01-01 too |
| `Calendar.YearStartClosed` | cron.go:232-235 | the day number of a year's start in closed form, from year lengths and the leap rule |
| `Calendar.CivilRoundTrip` | cron.go:239-243 | dates and day numbers correspond one to one, so `time.Date` of a time's own fields gives back its day |
| `Calendar.NextDateNumber` | cron.go:243 | the calendar's own next day, across month ends, year ends and leap days, is the next day number |
| `Calendar.CivilSuccessor` | cron.go:243 | the date of the next day number is the calendar's own next day, before 0001-01-01 too |
| `Calendar.UnixEpoch` | cron.go:232-235 | anchors the day count: 1970-01-01 is a Thursday, 62135596800 seconds after Go's zero time |
| `Calendar.AddYears` | cron.go:235 | moving a time by whole years keeps its date and clock, February 29 becoming March 1 in a common year |
| `Cron.Next` | cron.go:232-259 | the loop that skips by month, day, hour and minute returns exactly what a search of every minute of the five-year window returns |
| `Cron.Prev` | cron_extra.go:97-127 | the backward loop returns exactly what a backward search of every minute of its window returns |
| `Cron.FirstMatchEarliest` | cron.go:232-259 | the minute-by-minute search finds a minute-aligned match in the window with no earlier one, and fails only if the window has none |
| `Cron.LastMatchLatest` | cron_extra.go:93-127 | the backward search finds the latest match in the window, and fails only if there is none |
| `Cron.MissMonth` | cron.go:238-241 | when the month is not allowed, jumping to the next month (or to the minute before this one) loses no match |
| `Cron.MissDay` | cron.go:242-245 | when day of month or weekday is not allowed, jumping over the day in either direction loses no match |
| `Cron.MissHour` | cron.go:246-249 | when the hour is not allowed, jumping over the hour in either direction loses no match |
| `CronLaws.NextCorrect` | cron.go:229-259 | a nonzero result is the earliest matching minute strictly after t and inside the window; zero is returned when the window has none, and only then, save for a match at the zero time itself |
| `CronLaws.NextUnique` | cron.go:229-259 | that earliest minute is unique, so the result is determined by `Matches` alone |
| `CronLaws.PrevCorrect` | cron_extra.go:93-127 | `Prev` gives the latest match strictly before t, or zero for none, if and only if t is minute-aligned or its own minute does not match |
| `CronLaws.PrevSkipsOwnMinute` | cron_extra.go:93-127 | half a minute past 00:02, `Prev` of the schedule of every minute is not 00:02 |
| `CronLaws.PrevInvertsNext` | cron_extra.go:93-127 | from a matching t, `Prev` of a nonzero `Next` is t again, whenever t is inside Prev's window |
| `CronLaws.NextInvertsPrev` | cron.go:229-259 | from a matching t, `Next` of a nonzero `Prev` is t again, whenever t is inside Next's window |
| `CronLaws.Upcoming` | cron_extra.go:72-87 | the loop returns the repeated `Next` times of its reference definition, cut at n or at the first zero |
| `CronLaws.UpcomingCorrect` | cron_extra.go:68-87 | the list is strictly increasing and holds exactly the matching minutes between t and its last entry; it is shorter than n only if `Next` runs out there |
| `CronHorizon.FullDaysNeverZero` | cron.go:225-259 | with all days of the month allowed and no other mask empty, `Next` never returns the zero time |
| `CronHorizon.FullWeekdaysNeverZero` | cron.go:225-259 | with all weekdays allowed, `Next` never returns zero from any start if and only if some allowed day and month meet in every year |
| `CronHorizon.DateSuffices` | cron.go:225-259 | every window holds the whole calendar year after its start, so one allowed date in that year keeps `Next` from running out |
| `CronHorizon.LeapDayGap` | cron.go:225-259 | a schedule left with February 29 only has no match in the window after 1896-03-01 |
| `CronHorizon.YearBefore` | cron_extra.go:97-102 | the whole calendar year before the year a backward search starts in lies inside its window |
| `CronHorizon.DateBehindSuffices` | cron_extra.go:93-127 | so one allowed date in that year keeps `Prev` from finding none, and bounds its result from below |
| `CronHorizon.FullDaysPrevNeverZero` | cron_extra.go:93-127 | with all days of the month allowed and no other mask empty, `Prev` finds a time from year 3 on |
| `CronHorizon.LeapDayWindow` | cron_extra.go:99-100 | one window of `Prev` in numbers: from 1896-03-01T00:00 it goes back to 1891-03-01T23:59, five years before 1896-02-29T23:59 normalised |
| `CronSteps.StepMask` | cron.go:201-205 | the step loop with 64-bit wrap-around ends, and its mask is the stepped range plus exactly the bits that wrap-around adds |
| `CronSteps.CleanStep` | cron.go:201-205 | wrap-around adds no bit if and only if lo + 2*step is below 2^64 |
| `CronParser.PartRange` | cron.go:150-200 | an accepted part lies within its field's bounds, is not inverted and has a positive 64-bit step |
| `CronParser.ParsePart` | cron.go:150-206 | a part yields the mask of its range and step, or the first error of its branches |
| `CronParser.ParseField` | cron.go:138-148 | a field yields the union of its comma parts' masks, or the first part's error |
| `CronParser.PartExact` | cron.go:150-206 | every value the part denotes is in its mask; no other value is, if and only if the step cannot wrap |
| `CronParser.FieldExact` | cron.go:138-148 | a field parses if and only if each comma part does; its mask holds what some part denotes, and only that when no step wraps |
| `CronParser.ValidateDayMonth` | cron.go:107-125 | accepts if and only if either field is a star or some allowed day exists in some allowed month |
| `CronParser.ParseCron` | cron.go:61-94 | the parser's result and errors in order, field by field, with 7 folded onto Sunday and impossible dates refused |
| `CronParser.ReparseString` | cron.go:40-94 | parsing what `String` prints gives the same schedule |
| `CronParser.PossibleDate` | cron.go:96-125 | the table of month lengths allows a pair if and only if some year has that date |
| `CronParser.RejectsImpossible` | cron.go:61-125 | with five fields that parse, the expression is accepted if and only if a date of some year has an allowed day in an allowed month |
| `CronParser.PartsInhabited` | cron.go:138-206 | no accepted field is empty: it allows a value within its bounds |
| `CronGrammar.PartMeans` | cron.go:150-200 | every part that can be spelled from stars, numbers, names, ranges and steps is read as it is meant: its range and step, or the first error |
| `CronGrammar.StarStepPart` | cron.go:150-200 | `*/k` is the field's whole range in steps of k |
| `CronGrammar.SpanPart` | cron.go:150-200 | `lo-hi` without a step is every value from lo to hi |
| `CronGrammar.TokenValue` | cron.go:208-223 | a number or a name is read as its value within the bounds, or refused with the right error |
| `CronGrammar.MonthNames` | cron.go:49-57 | the month names are the twelve English ones and no others |
| `CronGrammar.FirstMonths` | cron.go:50-51 | January to June are 1 to 6 |
| `CronGrammar.LastMonths` | cron.go:51-52 | July to December are 7 to 12 |
| `CronGrammar.DayNames` | cron.go:54-56 | the weekday names are the seven English ones; minutes, hours and days of the month have no names |
| `CronGrammar.WeekdayNumbers` | cron.go:54-56 | Sunday to Saturday are 0 to 6 |
| `CronGrammar.FieldBounds` | cron.go:66-85 | the bounds of the five fields, as numbers |
| `CronGrammar.AnyCase` | cron.go:208-214 | a name is read in upper and lower case |
| `CronGrammar.SplitJoined` | cron.go:138-140 | a comma list is split into just the parts it was joined from |
| `CronGrammar.ListMeans` | cron.go:138-206 | a list parses if and only if each of its parts means something, and denotes the values they list |
| `CronGrammar.ExpressionFields` | cron.go:61-65 | an expression of five spelled lists is read as those five lists |
| `GoStrings.FieldsCut` | cron.go:62 | white space separates fields and is no part of them, in any amount |
| `GoStrings.TrimmedOf` | cron.go:209 | trimming takes off the white space on both sides and nothing else |
| `GoStrings.AsciiSpaces` | cron.go:62 | which ASCII characters are white space |
| `GoStrings.AtoiSigned` | cron.go:215 | a leading sign is read |
| `CronLanguage.NumeralPart` | cron.go:150-223 | a printed number stands for itself alone |
| `CronLanguage.OpenRangePart` | cron.go:150-200 | `n/step` runs from n to the field's maximum |
| `CronLanguage.RangePart` | cron.go:150-200 | `lo-hi/step` is the range it prints |
| `CronLanguage.NumeralField` | cron.go:138-206 | a field that is a single printed number allows that value and no other |
| `CronLanguage.WrapExample` | cron.go:201-205 | a concrete minute part whose mask has a bit the part does not denote |
| `CronLanguage.ParsedExact` | cron.go:61-94 | all five masks of an accepted expression hold exactly what its fields denote, weekday 7 counting as Sunday |
| `CronLanguage.ParsedPopulated` | cron.go:61-125 | every accepted expression allows a minute, an hour, a month, a weekday and some date |
| `CronLanguage.StarDayNeverZero` | cron.go:225-259 | with a star for the day of the month `Next` never returns the zero time |
| `CronLanguage.StarWeekdayNeverZero` | cron.go:225-259 | with a star for the weekday `Next` never returns zero if and only if some date besides February 29 is allowed |
| `CronLanguage.LeapDayExpression` | cron.go:61-259 | the expression `0 0 29 2 *` is accepted, and `Next` from 1896-03-01 returns the zero time |
| `CronRule.DayOnWeekday` | cron.go:265-269 | every month and day, February 29 included, falls on every weekday in some year |
| `CronRule.RuleExact` | cron.go:265-269 | with both day fields restricted, coded and documented rule agree at all times if and only if every weekday and every day of every allowed month is allowed |
| `CronRule.ParsedRule` | cron.go:61-94 | for an accepted expression they agree if and only if a day field is a star or that condition holds |
| `CronRule.FridayExpression` | cron.go:265-269 | an accepted expression and a time that is documented to match and does not |
| `Jobs.NewJobUnstarted` | job.go:156-236 | whatever its options, `NewJob` builds a job that has never run, with at least one attempt, a queue and zero timestamps |
| `Jobs.NewJobFields` | job.go:155-236 | the defaults in plain values, and which field each option sets; an empty worker is refused |
| `Jobs.LastOptionWins` | job.go:226-234 | of two options for one field the later wins |
| `StoreSpec.RanksUnique` | store.go:180-189 | the order by priority, scheduled time and ID leaves one way to rank a set of jobs, so map iteration order cannot show |
| `StoreSpec.RankingExists` | store.go:180-189 | every set of jobs with distinct IDs can be ranked |
| `StoreSpec.FetchTakesFirst` | store.go:159-203 | an eligible job left behind comes after every job taken, and then the limit was used up |
| `StoreSpec.FetchSkipsExecuting` | store.go:159-203 | no fetch changes an executing job |
| `StoreSpec.LeftOver` | store.go:159-203 | after a fetch the eligible jobs are the rest of the ranking |
| `StoreSpec.FetchSplit` | store.go:159-203 | at one time, fetching a and then b gives the same jobs in the same order and the same store as fetching a+b |
| `Store.InMemoryStore.constructor` | store.go:84-90 | a new store is empty |
| `Store.InMemoryStore.Enqueue` | store.go:93-134 | stores the job under a fresh ID with time and state resolved unless an unfinished duplicate blocks it; otherwise returns that duplicate and changes nothing |
| `Store.InMemoryStore.FindUnique` | store.go:138-156 | returns a stored job that conflicts, and nil only if none does, in any iteration order |
| `Store.InMemoryStore.FetchAvailable` | store.go:159-203 | hands out the limit first of the eligible jobs in execution order, each marked executing with one more attempt, and changes nothing else |
| `Store.InMemoryStore.Complete` | store.go:206-216 | completes the job whatever its state, or reports it missing; all other jobs unchanged |
| `Store.InMemoryStore.Retry` | store.go:219-232 | records the error under the current attempt, if there is one, and makes the job retryable at the given time |
| `Store.InMemoryStore.Discard` | store.go:235-248 | records the error, if there is one, and discards the job at the given time |
| `Store.InMemoryStore.Cancel` | inmemory_caps.go:37-50 | cancels an unfinished job; a finished one is left as it is |
| `Store.InMemoryStore.RetryNow` | inmemory_caps.go:68-80 | makes the job available at once and clears both finish times |
| `Store.InMemoryStore.Snooze` | inmemory_caps.go:87-103 | puts an executing job back on schedule and takes its attempt back, never below zero |
| `Store.InMemoryStore.RescueExecuting` | inmemory_caps.go:150-171 | exactly the jobs executing since before the limit are made available or, without attempts left, discarded; both counts are exact |
| `Store.InMemoryStore.DeleteFinishedBefore` | inmemory_caps.go:111-142 | removes the prunable jobs, with a positive limit exactly the limit lowest IDs of them, and returns how many |
| `Store.PrunedUnique` | inmemory_caps.go:111-142 | the set a prune removes is determined, so map iteration order cannot show |
| `Store.SortJobs` | store.go:180-189 | the result is the ranking of the jobs given |
| `StoreLaws.FetchHandsOut` | store.go:159-203 | in numbers: a fetch hands out runnable jobs by rising priority number, then schedule, then ID, each marked executing with one more attempt at that time |
| `StoreLaws.FetchLeavesBehind` | store.go:180-193 | a runnable job left behind has no lower priority number, earlier schedule or lower ID, in this order, than any job taken, and the limit was used up |
| `StoreLaws.FetchCount` | store.go:159-203 | a fetch hands out as many jobs as are runnable, up to the limit, and none for a limit that is not positive |
| `StoreLaws.RefusedWhen` | store.go:100-156 | a job is refused if and only if it has a key and a period and a stored job with the same queue, worker and key is available, scheduled, executing or retryable and was inserted within the period |
| `StoreLaws.OthersDoNotBlock` | store.go:138-156 | a job of another queue, worker or key never changes whether a job is refused |
| `StoreLaws.BothStored` | store.go:93-134 | two such jobs are both inserted |
| `StoreLaws.StoredAs` | store.go:113-133 | an accepted job gets the next ID, can run just from the time it asks for (its delay, its schedule or at once) and is otherwise as given; no other job changes |
| `StoreLaws.RunsAgain` | inmemory_caps.go:68-103 | a retried, restarted or snoozed job can run again from its retry time, at once, from the end of its snooze, and not before |
| `StoreLaws.RescueMeans` | inmemory_caps.go:150-171 | a rescued job can run at once if attempts are left and counts as discarded at once if not |
| `StoreLaws.FinishedAt` | inmemory_caps.go:264-279 | completing, discarding and cancelling give the right state and start the job's age for pruning at that moment |
| `StoreLaws.PrunedWhen` | inmemory_caps.go:111-142 | a finished job is prunable if and only if its state is asked for and it finished before the cutoff; a restarted one goes by its insert time |
| `StoreLaws.TaskKept` | store.go:206-248 | ending an attempt never changes the task or its attempts, except that a snooze of an executing job takes one back |
| `StoreLaws.FailureRecorded` | job.go:263-271 | a failure is recorded once, under its attempt, at its time, with its message; without a failure the history stays |
| `StoreLaws.FailureEnds` | oban.go:333-346 | a failed attempt is retried at the retry time while attempts are left, and discarded otherwise |
| `OwnerRuns.StepKeeps` | store.go:93-248 | enqueue, fetch and every way of finishing keep the attempt bookkeeping, the spacing of duplicates and the match of runners and executing jobs |
| `OwnerRuns.LeadsKeep` | store.go:93-248 | so does every run, from any state in which they hold |
| `OwnerRuns.AttemptsAddUp` | store.go:195-248 | in every run each job's failures are numbered 1, 2, 3, ...; their count plus one if executing, completed or cancelled is Attempt, which never exceeds MaxAttempts |
| `OwnerRuns.DuplicatesApart` | store.go:93-156 | in every run two unfinished jobs with one queue, worker and key, the later one unique, were inserted further apart than the later one's period |
| `OwnerRuns.HistoryGrows` | job.go:263-271 | a step only extends a job's error history and never touches a finished job |
| `SqlStore.RowRoundTrip` | sqlstore.go:724-829 | scanning back an inserted row gives the job, with empty args read as an empty object and the relative delay gone |
| `SqlStore.CompleteAgrees` | sqlstore.go:502-509 | guarded and unguarded `Complete` agree if and only if the job is executing, or was completed at that same time |
| `SqlStore.FailureAgrees` | sqlstore.go:528-573 | guarded and unguarded `Retry` and `Discard` with an error agree if and only if the job is executing |
| `SqlStore.SilentFailureAgrees` | sqlstore.go:528-573 | without an error they agree on an executing job if and only if it has no last error, on any other if and only if the in-memory call changes nothing |
| `SqlStore.OperatorsAgree` | sqlstore.go:645-680 | `Cancel` and `RetryNow` do the same in both stores from every state |
| `SqlStore.RescueAgrees` | sqlstore.go:618-638 | both stores rescue alike if and only if they need not judge an executing job that has no attempt time |
| `SqlStore.StepInStep` | sqlstore.go:292-573 | a step of an owner run takes two stores with the same jobs to two stores with the same jobs |
| `SqlStore.StoresInStep` | sqlstore.go:292-573 | from the same jobs, along every owner run the guarded SQL store holds the same jobs, states and error histories as the unguarded in-memory store |
| `SqlStore.AnswersInStep` | sqlstore.go:409-497 | after every such run both stores hand out the same jobs in the same order and give the same verdict on duplicates |
| `SqlStore.AttemptedInRun` | sqlstore.go:438-497 | along every such run with nonzero clocks each executing job has an attempt time |
| `SqlStore.RescueInStep` | sqlstore.go:618-638 | after every such run a rescue takes both stores to the same jobs again |
| `SqlStore.SqlRunStamped` | sqlstore.go:502-680 | under all transitions in any order, deletes and prunes included, a completion time is set only in completed rows and a discard time only in discarded or cancelled ones |
| `SqlStore.PruneSame` | sqlstore.go:594-610 | in every table so reached the SQL prune deletes the same rows as an unlimited in-memory prune over the three finished states |
| `Engine.CapacityKeeps` | oban.go:297-347 | in a queue, occupied slots plus jobs reserved or fetched but not launched never exceed its concurrency, step by step |
| `Engine.EngineKeeps` | oban.go:218-347 | every atomic step keeps capacity, ownership and the lifecycle of loops and attempts |
| `Engine.Refines` | oban.go:297-355 | every engine step is a step of an owner run or leaves the store as it is |
| `Engine.EngineRefinesOwnerRuns` | oban.go:218-355 | from any store an engine is created on, every interleaving drives it through an owner run |
| `Engine.EngineKeepsLaws` | oban.go:218-355 | so attempt bookkeeping and uniqueness hold at every moment if they held of that store |
| `Engine.SendNeverBlocks` | oban.go:297-314 | at every moment of every interleaving, on any store, when a fetched job waits to be launched the slot send has room |
| `Engine.ConcurrencyBound` | oban.go:281-347 | no queue ever has more attempts holding slots than its concurrency |
| `Engine.ExactlyOneOwner` | oban.go:297-347 | at every moment of every interleaving each executing job, those found executing at creation apart, has one and only one owner: a running attempt or a place in a dispatch list |
| `Engine.StopQuiesces` | oban.go:247-278 | from the moment `Stop` has returned, and at every later one, no attempt is in flight and no job is executing but those found executing at creation |
| `Engine.StopIsFinal` | oban.go:247-278 | after that no queue can fetch, launch or start again |
| `EngineDispatch.TickReserves` | oban.go:297-301 | at every moment a tick reserves all the capacity no attempt holds |
| `EngineDispatch.DispatchFills` | oban.go:302-309 | the fetch that follows takes as many runnable jobs as were reserved for, the first ones in order |
| `EngineDispatch.FirstDispatch` | oban.go:280-309 | from a new engine, `Start`, one tick and one fetch can happen in any state of the store and bring a queue its runnable jobs up to its concurrency |
| `EngineDispatch.LaunchesInOrder` | oban.go:309-313 | in every interleaving, a launched job goes before every job of its batch still waiting |
| `EngineStop.NeverStuck` | oban.go:247-278 | once `Stop` is called some step of the engine's own goroutines can be taken, or `Stop` can return |
| `EngineStop.WindsDown` | oban.go:281-347 | every step of a queue loop or an attempt, a new tick excepted, uses up work that is left |
| `EngineStop.WindingBound` | oban.go:281-347 | however they are scheduled, no more such steps can be taken than the work left at the start |
| `EngineStop.StopReturns` | oban.go:247-278 | at any moment after `Stop` was called, a continuation without new ticks ends in its return |
| `Drain.DrainRun` | drain.go:192-234 | one run settles its job as the worker's outcome and the remaining attempts demand, and counts it in the one matching bucket |
| `Drain.DrainFail` | drain.go:238-246 | a failure with no attempts left is discarded, any other is retried after the backoff |
| `Drain.DrainRunIsOwnerStep` | drain.go:192-246 | each run is a finishing step by the job's owner, so bookkeeping and uniqueness carry over |
| `Drain.BucketStates` | drain.go:192-246 | the bucket a run is counted in tells the state its job is left in, and the other way round |
| `Drain.RunsAgainFrom` | drain.go:204-246 | after a run a failed job can run again just after its backoff while attempts are left, a snoozed one after its delay, and any other never |
| `Drain.RunTally` | drain.go:192-246 | one run uses up at least one of the runs its job may still take, and ends it or leaves it fetchable, as its bucket says |
| `Drain.FetchTally` | drain.go:152-160 | a fetch changes no measure but the attempts, by one for each job handed out |
| `Drain.BatchFacts` | drain.go:167-169 | after any number of turns of the batch loop the tally is in balance and the rest of the batch is still executing |
| `Drain.RunBatch` | drain.go:167-169 | the batch loop settles its jobs one after the other, and its tally counts each of them |
| `Drain.DrainRound` | drain.go:156-169 | one fetch and its batch move the drain on by one round; an empty fetch ends it with nothing eligible |
| `Drain.RoundSettles` | drain.go:156-169 | a round runs each fetched job once and touches no other job |
| `Drain.FetchesAll` | drain.go:9-13 | a fetch of `Drain` takes every runnable job of the queue if there are at most 1073741824 |
| `Drain.FirstPass` | drain.go:152-169 | the first pass of a drain that is not cancelled runs each of those jobs once and leaves all others as they were |
| `Drain.FirstPassTotal` | drain.go:152-169 | and counts just as many runs |
| `Drain.FarFuture` | drain.go:15-19 | the time used for scheduled jobs, as a number of seconds |
| `Drain.Drain` | drain.go:113-174 | whenever the loop comes to an end: store and tally are those of its rounds; runs not snoozed stay within the sum of max(1, MaxAttempts - Attempt) over the queue's fetchable jobs; completed, discarded, cancelled and failed together are the fetchable jobs that left the queue; attempts and recorded errors grew accordingly; a drain not cancelled at its start has run at least as many jobs as were runnable at its first fetch (if at most 1073741824), and without recursion exactly as many; with recursion nothing is eligible afterwards, and nothing in the queue is fetchable at all if and only if no job left is scheduled beyond the last fetch |
| `Drain.AlwaysEnds` | drain.go:152-173 | the loop returns from a store whatever workers, clocks and context do if and only if it is not recursive or the queue has no job it could fetch |
| `Drain.EndsEverywhere` | drain.go:170-172 | it returns from every store in every world if and only if it is not recursive |
| `Drain.DrainEnds` | drain.go:152-173 | in a given world it returns if and only if the workers snooze a bounded number of times in the run it makes |
| `Drain.EndsInTime` | drain.go:152-173 | with at most b snoozes it has returned after potential + b + 1 rounds |
| `Drain.QuietEnds` | drain.go:152-173 | if no worker snoozes from its m-th run on, it has returned after potential + m + 1 rounds |
| `Drain.CancelEnds` | drain.go:152-155 | a context cancelled by round n stops it there at the latest |
| `Drain.SnoozesForever` | drain.go:152-173 | with recursion, a job within reach of every fetch and workers that always snooze within that reach, it has not returned after any number of rounds |
| `Drain.DrainIsOwnerRun` | drain.go:113-234 | every drain takes the store through an owner run, from any state in which runners and executing jobs match, and keeps the ownership invariant |
| `Drain.TallyJobs` | drain.go:24-48 | runs that were not snoozed stay within the sum of max(1, MaxAttempts - Attempt); completed, discarded, cancelled and failed together are the fetchable jobs that left the queue |
| `Drain.TallyAttempts` | drain.go:24-48 | attempts grew by one for each run not snoozed, and each failing run recorded one error |
| `Drain.SnoozingGoesOn` | drain.go:152-173 | a round that ends no job and leaves all in reach is followed by a fetch with work, if there was any |
| `Periodic.CronHeap.Swap` | periodic.go:41-45 | exchanges two entries and keeps every cached index equal to its position |
| `Periodic.CronHeap.Append` | periodic.go:48-52 | appends the entry with its index set |
| `Periodic.CronHeap.RemoveLast` | periodic.go:55-63 | removes and returns the last entry with index -1 and leaves the others in place |
| `Periodic.CronHeap.Push` | oban.go:404 | adds one entry and restores heap order and indexes |
| `Periodic.CronHeap.Pop` | oban.go:401 | removes and returns an entry with the least fire time and restores heap order and indexes |
| `Periodic.CronHeap.Init` | oban.go:382 | makes a heap of entries in any order |
| `CronPlugin.AddEntry` | plugins.go:398-407 | pushes one new entry for a periodic that has a schedule and a next time, and nothing for any other |
| `CronPlugin.Plugin.BuildHeap` | plugins.go:395-410 | the heap holds just one entry of its own for each listed periodic that has a next time, at that time, and no other |
| `CronPlugin.Plugin.FireDue` | plugins.go:413-428 | enqueues exactly the due entries, once each and earliest first, reschedules or drops them, leaves the rest alone and ends with every entry in the future |
| `CronPlugin.EngineHeap` | oban.go:377-382 | the engine's heap holds just one entry of its own for each listed periodic, at its next time, zero included |
| `CronPlugin.EngineFireRoot` | oban.go:400-405 | one turn pops an earliest entry and puts it back with its next time; if some due entry has no next time, the root is due again and some such entry is still there |
| `CronPlugin.EngineFireDue` | oban.go:398-406 | if no due entry is without a next time, the loop ends: it enqueues exactly the due entries, once each and earliest first, loses none and leaves every entry in the future |
| `CronPlugin.StaysDue` | oban.go:403-404 | an entry put back with its next time is still due if and only if that time is the zero time |
| `CronPlugin.WaitsForFirst` | plugins.go:413-428 | between polls a waiting entry holds the first matching minute after the last poll |
| `CronPlugin.FiresExactlyWhenDue` | plugins.go:413-428 | over nondecreasing polls one entry, not yet dropped, fires at a poll if and only if a minute after the previous poll, up to this one, matches |
| `CronPlugin.Polls` | plugins.go:110-141 | the plugin run over any sequence of poll times: setup makes one entry per periodic, each poll enqueues just the entries whose own history fires there, once each, and every entry ends where its history puts it |
| `CronPlugin.EnginePolls` | oban.go:374-406 | the same for the engine's scheduler while `Next` is nonzero, with no entry ever dropped |
| `CronPlugin.EnqueuedExactlyWhenDue` | plugins.go:395-428 | in such a run with nondecreasing times, an entry is enqueued at a poll if and only if it is not yet dropped and some minute since the previous poll matches |
| `CronPlugin.EnqueuedPerMinute` | plugins.go:395-428 | in such a run the number of times an entry is enqueued is the number of its fire minutes |
| `CronPlugin.FiresOncePerMinute` | plugins.go:395-428 | the minutes an entry fires for are distinct, increasing, matching minutes |
| `CronPlugin.DroppedForGood` | plugins.go:420-424 | an entry is dropped only after a poll with no match in the search window |
| `CronPlugin.NeverDropped` | plugins.go:420-424 | an entry whose `Next` does not run out is never dropped |
| `UniqueKeys.UniqueKey` | insert.go:262-281 | the key is the JSON list of the sorted explicit keys and field parts |
| `UniqueKeys.DefaultKey` | insert.go:258-281 | the key under the default rule is the list of args, queue and worker, in this order whatever their values |
| `UniqueKeys.DefaultRule` | insert.go:51-67 | the default rule looks at unfinished jobs and compares worker, queue and args |
| `UniqueKeys.KeysMeanFields` | insert.go:258-281 | two jobs get one key under a rule if and only if they agree on each selected field |
| `UniqueKeys.SortedUnique` | insert.go:278 | sorting is determined by the multiset of parts |
| `UniqueKeys.PartInjective` | insert.go:263-277 | a part tells which field it came from and that field's value |
| `JsonStrings.EncodeInjective` | insert.go:278-280 | different part lists have different JSON texts (section 7 of RFC 8259) |
| `JsonStrings.ReadQuoted` | insert.go:278-280 | an escaped string reads back as itself, with whatever follows it intact |
| `JsonStrings.NamedText` | insert.go:278-280 | which characters are escaped, and which by a name of their own |
| `Insert.FindConflict` | inmemory_caps.go:180-214 | returns the lowest-ID stored job in the chosen states and window that agrees on every selected field, and nil only if there is none or the period is not positive |
| `Insert.DefaultsSame` | insert.go:51-67 | filling in the defaults changes no verdict |
| `Insert.BlocksByDefault` | insert.go:51-67 | what blocks under the default rule, in the fields of jobs |
| `Insert.BlocksByField` | insert.go:258-281 | what blocks under a rule for given states and one field |
| `Insert.ApplyReplace` | insert.go:220-256 | the job returned is the clone with just the listed ones of schedule, priority, attempts and args taken from the incoming job, and every other field as it was |
| `Insert.ReplaceShows` | insert.go:220-256 | it is the stored job if and only if the two jobs agree on every listed field |
| `Insert.ReplaceLost` | insert.go:222-232 | a conflict whose stored priority is not the one the returned job shows |
| `Insert.Insert` | insert.go:150-200 | refuses a bad priority; on a conflict stores nothing and returns the lowest blocking job with the replacements made on the clone; otherwise enqueues, reading the clock again |
| `RateLimit.RateLimiter.constructor` | ratelimit.go:32-49 | a new limiter is full |
| `RateLimit.RateLimiter.Refill` | ratelimit.go:53-63 | credits the time elapsed up to the cap and ignores a clock that did not move on |
| `RateLimit.RateLimiter.AllowN` | ratelimit.go:75-87 | admits if and only if the refilled tokens suffice or n is not positive, and takes n tokens only then |
| `RateLimit.RateLimiter.Tokens` | ratelimit.go:92-97 | refills and returns the whole tokens at hand |
| `RateLimit.AfterWellFormed` | ratelimit.go:53-97 | tokens stay between zero and the rate for any call and any clock |
| `RateLimit.RefillComposes` | ratelimit.go:53-63 | refilling on the way to a later time makes no difference |
| `RateLimit.TokensAt` | ratelimit.go:51-63 | the refilled tokens in closed form: the smaller of the rate and the tokens plus rate times elapsed time over interval |
| `RateLimit.CallTakes` | ratelimit.go:71-87 | a call of n > 0 is admitted if and only if n tokens are there and takes just n; a denied call takes nothing |
| `RateLimit.AllAdmitted` | ratelimit.go:71-87 | calls at one time that ask for no more than the refilled tokens are all admitted and leave the difference |
| `RateLimit.NewLimiterAdmitsRate` | ratelimit.go:28-87 | a new limiter admits exactly its rate at once |
| `RateLimit.WindowBound` | ratelimit.go:53-97 | from any state, calls timed within a window of length T are admitted at most rate + rate*T/interval units |
| `RateLimit.NewLimiterWindow` | ratelimit.go:32-97 | the same after any history of a new limiter, however its clock ran before |
| `RateLimit.LookDropped` | ratelimit.go:75-97 | leaving out one `Tokens` call or denied `AllowN` changes no decision on calls at its time or later |
| `RateLimit.LookingChangesNothing` | ratelimit.go:75-97 | leaving any set of `Tokens` calls and denied `AllowN` calls out of a history on a nondecreasing clock, or putting them in, changes no decision on the other calls and no unit admitted |
| `RateLimit.LookingExact` | ratelimit.go:53-97 | looking at one time leaves the verdict at another time alone, for every limiter and amount, if and only if the clock has not run backwards |
| `RateLimit.LookingBackwards` | ratelimit.go:53-97 | for any two times in the wrong order, a limiter for which looking admits a call that would be denied |
| `Backoff.BackoffFib` | backoff_extra.go:135-151 | the n-th Fibonacci number capped at 2^62, its 64-bit sums never overflowing |
| `Backoff.FibonacciNext` | backoff_extra.go:111-133 | unit times the capped Fibonacci number, at most max, always positive |
| `Backoff.FibonacciExact` | backoff_extra.go:111-133 | that is min(unit*fib(n), max) if and only if fib(n) or max/unit is at most 2^62 |
| `Backoff.FibonacciMonotone` | backoff_extra.go:111-133 | the delay never shrinks from one attempt to a later one |
| `Backoff.LinearNext` | backoff_extra.go:64-85 | the delay with 64-bit wrap-around and its overflow guard |
| `Backoff.LinearExact` | backoff_extra.go:64-85 | that is min(base + step*(n-1), max) if and only if the exact sum is below 2^64 or its wrapped value is negative or at least max |
| `Backoff.LinearOverflow` | backoff_extra.go:64-85 | settings and an attempt for which it is not |
| `Backoff.DefaultDelays` | backoff_extra.go:64-133 | the default settings and the first delays, as numbers |

## Left out

- Local time zones and daylight saving: all times are UTC, instants are unbounded and Go's own range of representable times is not modelled.
- Bit masks are sets of bit positions; machine-word operations on them are not modelled beyond shifts of 64 or more.
- Cron macros (`ParseCronSpec`) and the `Must` variants: a table lookup and panics.
- Go strings are sequences of Unicode characters: invalid UTF-8 is not modelled, and lower case is exact only where the result is ASCII, which is all the name tables contain.
- Jobs are values, so aliasing between a caller's pointer and a stored job is not modelled; nil jobs and nil receivers are not either.
- Goroutines, tickers, contexts, timeouts, panics and mutexes: the engine is a state machine of atomic steps on values rather than a class, since the steps of several goroutines interleave.
- A worker that outlives `Stop`'s context, rescue or `RetryNow` of a job whose runner is alive, and operator calls during owner runs: ownership does not hold there.
- Store errors in the engine other than a failed fetch, and the error handler, logging, middleware, telemetry and events.
- SQL text, drivers, schema and row locks: statements are guarded functions on rows, and IDs are a counter that a refused insert does not use up.
- SQL `FindConflict` and the race between `FindConflict` and `Enqueue` in `Insert`, which are two calls and not one atomic step.
- Tags and meta, queries, batches, control calls and the web interface.
- Canonical JSON of job arguments (`insert.go:287-300`): an arbitrary function in the model.
- `ExponentialBackoff` and `ConstantBackoff`: floating point with random jitter, and a constant.
- Go's `container/heap` and `sort` are standard library code; the heap operations are modelled as that package writes them, the sorts by insertion, whose result is the only sorted one.
- RateLimit.RateLimiter.AllowN: does not model float64 rounding, because tokens and rates are exact reals here.
- CronLaws.NextCorrect: a match at the zero time itself cannot be told from "no match", because Go reports none as the zero time.
- CronLaws.PrevCorrect: says nothing for a time within the zero time's own minute, for the same reason.
- SqlStore.StoresInStep: leaves out snoozing, because the SQL store has no `Snooze`, and clocks that read the zero time, which a nullable column cannot tell from unset.
- CronPlugin.EngineFireDue: asks that no due entry is without a next time, because the code does not terminate otherwise; see `CronPlugin.EngineFireRoot`.
- Drain.Drain: is total for every drain that comes to an end; `Drain.AlwaysEnds` and `Drain.DrainEnds` say which do. Workers that enqueue more jobs, and stores other than the in-memory one, are not modelled.
- Drain.RunBatch: a context cancelled within a batch is seen only before the next fetch, as the code checks it there.
