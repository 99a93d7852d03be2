# gamehouse-dashboard session engine, modelled in Dafny

This project models the core of the gamehouse dashboard. A Discord bot turns the
presence events of tracked guild members into game-session records. A web
dashboard then aggregates those records. The model covers both halves:

- **The bot** (`DiscordBotService`). A start of a PLAYING activity closes the
  user's open session, banking the time since it started, and opens a fresh one.
  An end of a PLAYING activity closes the open session, if there is one. A guild
  scan opens a session for every tracked, cached member who is playing and has
  no open session. The model proves that these transitions keep at most one open
  session per user and never change a closed record. It also proves that a
  rescan over the same cache writes nothing.
- **The dashboard** (`DashboardController`):
  - the table of open sessions;
  - the per-game and per-user leaderboards, ranked longest first;
  - the per-game distribution in whole minutes;
  - the five-minute concurrency histogram;
  - the session timeline;
  - the hours/minutes/seconds split of a duration.

  Each is proved against an independent reference: the reference totals
  (`GroupTotal`), the walk's reference key sequence (`AllStepKeys`), and
  `ToSeconds` as the inverse of the h/m/s split.

The model is organised as follows:

- Times are epoch seconds and durations are seconds, both unbounded integers.
- Java's truncating `/` and `%` are written out (`JavaMath`).
- The session store is a class whose `records` sequence is indexed by record id.
- The handlers are methods of a `DiscordBotService` class that changes the store
  through its methods.
- A `HashMap`'s iteration order is a nondeterministic choice.
- The histogram's `TreeMap` is an ascending sequence of buckets.

Modules:
- `GameSessions`: the record and the store invariants.
- `SessionRepository`: the store.
- `DiscordBot`: the bot.
- `DurationFormat` and `JavaMath`: the h/m/s split and Java arithmetic.
- `PlaytimeTotals`: totals, leaderboards and distribution.
- `PeakConcurrency`: the histogram.
- `DashboardViews`: the open-sessions table and the timeline.
- `Wrappers` and `SeqFacts`: helpers.

The histogram walks every session on its own in 300-second steps and adds one
to a bucket per step. A person with two overlapping sessions is counted twice.
There is no per-person merging, no width setting and no clamping.

The dashboard's queries read the store through `findAll()` or
`findByActiveTrue()`. The `findAll()` snapshot is simply the store's record
sequence, which the queries take as their `sessions` parameter.

The bot's lookup also follows the code. The code calls
`findByDiscordUserIdAndActiveTrue(userId)` and uses the result as an optional
single record, but the repository interface declares only
`findAllByDiscordUserIdAndActiveTrue`, which returns a list. The model reads the
call as "some open session of this user, if there is one".

## Model

| member | source | states |
|---|---|---|
| GameSessions.CloseConservesPlaytime | src/main/java/nl/jessedezwart/gamehouse/service/DiscordBotService.java:210-213 | Closing an open session banks exactly `now - startTime`: its playtime just before and just after the close agree, and it is no longer active |
| GameSessions.ClosedPlaytimeIsFrozen | src/main/java/nl/jessedezwart/gamehouse/controller/DashboardController.java:64-67 | Once a session is closed, every later read sees the same playtime, and its end is its start plus its banked total |
| GameSessions.Effective | src/main/java/nl/jessedezwart/gamehouse/controller/DashboardController.java:64-67 | A session's playtime as of `now` is the span from its start to its end, plus what it banked when it is still open |
| GameSessions.SessionEnd | src/main/java/nl/jessedezwart/gamehouse/controller/DashboardController.java:145 | An open session ends at `now`; a closed one ends its banked total after its start |
| GameSessions.Open | src/main/java/nl/jessedezwart/gamehouse/service/DiscordBotService.java:179-185 | A fresh session is open for its user with the given name and game, starts now, and has zero playtime now |
| GameSessions.Close | src/main/java/nl/jessedezwart/gamehouse/service/DiscordBotService.java:172-174 | Closing banks exactly `now - startTime` on top of the old total, makes the session inactive, and keeps its user, name, game and start |
| SessionRepository.ActiveOnly | src/main/java/nl/jessedezwart/gamehouse/repository/GameSessionRepository.java:10 | The open-session query keeps every active stored record exactly as often as it is stored, and drops every closed one |
| SessionRepository.SessionStore.FindByActiveTrue | src/main/java/nl/jessedezwart/gamehouse/repository/GameSessionRepository.java:10 | `findByActiveTrue`: every active stored record, as often as it is stored, and no closed one |
| SessionRepository.SessionStore.FindActiveByUser | src/main/java/nl/jessedezwart/gamehouse/service/DiscordBotService.java:170 | The active-session lookup finds nothing iff the user has no open session; otherwise it returns the valid id and value of an open session of that user |
| SessionRepository.SessionStore.Save | src/main/java/nl/jessedezwart/gamehouse/service/DiscordBotService.java:175 | Saving a changed record replaces the record under its id and nothing else |
| SessionRepository.SessionStore.Insert | src/main/java/nl/jessedezwart/gamehouse/service/DiscordBotService.java:186 | Saving a new record appends it under the next id |
| DurationFormat.FormatDuration | src/main/java/nl/jessedezwart/gamehouse/controller/DashboardController.java:82-87 | The hours/minutes/seconds shown add back up to the duration; for a non-negative duration minutes and seconds lie in 0..59, for a negative one all three parts are non-positive |
| DurationFormat.FormatRoundTrip | src/main/java/nl/jessedezwart/gamehouse/controller/DashboardController.java:82-87 | Every normalised h/m/s triple is exactly what `formatDuration` shows for its number of seconds, so the split is the inverse of `ToSeconds` |
| DiscordBot.FirstPlaying | src/main/java/nl/jessedezwart/gamehouse/service/DiscordBotService.java:125-128 | The first PLAYING activity: none iff no activity is PLAYING, otherwise a PLAYING activity with no PLAYING activity before it |
| DiscordBot.Handled | src/main/java/nl/jessedezwart/gamehouse/service/DiscordBotService.java:155-167 | Events of bots, of untracked users, and of activities other than PLAYING are never handled |
| DiscordBot.CloseFound | src/main/java/nl/jessedezwart/gamehouse/service/DiscordBotService.java:170-175 | Closing the looked-up record, if any, banks `now - startTime` on it, makes it inactive, and changes no other record |
| DiscordBot.AfterStart | src/main/java/nl/jessedezwart/gamehouse/service/DiscordBotService.java:169-186 | After a start the store is the old one with the lookup closed, plus one fresh open session of the user, started now with nothing banked, for the new game |
| DiscordBot.ScanVisit | src/main/java/nl/jessedezwart/gamehouse/service/DiscordBotService.java:113-144 | One visit of the scan keeps the store as a prefix, and appends one fresh open session for the first PLAYING activity exactly when the member is cached, plays, and has no open session |
| DiscordBot.AppendOpenKeepsInvariant | src/main/java/nl/jessedezwart/gamehouse/service/DiscordBotService.java:130-140 | Appending a fresh session for a user without an open session keeps at most one open session per user and open sessions unbanked |
| DiscordBot.EndClosesTheActive | src/main/java/nl/jessedezwart/gamehouse/service/DiscordBotService.java:203-214 | An end event without an open session changes nothing; otherwise it closes that session, banking `now - startTime`. Afterwards the user has no open session, the invariant holds, and no other record (in particular no closed one) changes |
| DiscordBot.StartClosesPrevious | src/main/java/nl/jessedezwart/gamehouse/service/DiscordBotService.java:169-177 | A start event closes the looked-up session: its total grows by exactly `now - startTime`, it becomes inactive, and its user, name, game and start are kept |
| DiscordBot.StartOpensTheOnlyActive | src/main/java/nl/jessedezwart/gamehouse/service/DiscordBotService.java:169-186 | After a start event the newest record is the fresh session (started now, nothing banked, active), the invariant still holds, and that fresh session is the user's only open one |
| DiscordBot.StartTouchesOnlyTheLookup | src/main/java/nl/jessedezwart/gamehouse/service/DiscordBotService.java:169-186 | A start event changes no record except the looked-up one, and no closed record |
| DiscordBot.ScanKeepsInvariant | src/main/java/nl/jessedezwart/gamehouse/service/DiscordBotService.java:108-149 | A scan keeps at most one open session per user, opens sessions with nothing banked, and leaves every existing record unchanged |
| DiscordBot.ScanIsIdempotent | src/main/java/nl/jessedezwart/gamehouse/service/DiscordBotService.java:130-132 | After a scan, a second scan over the same tracked users and guild cache opens nothing, at any later time |
| DiscordBot.DiscordBotService.VisitMember | src/main/java/nl/jessedezwart/gamehouse/service/DiscordBotService.java:113-147 | One user's visit: a cached member who is playing and has no open session gets one fresh session for the first PLAYING activity; otherwise the store is unchanged |
| DiscordBot.DiscordBotService.ScanGuildOnce | src/main/java/nl/jessedezwart/gamehouse/service/DiscordBotService.java:108-149 | The store afterwards is the old store with exactly one fresh session appended per tracked, cached, playing user who had no open session, in some order |
| DiscordBot.DiscordBotService.OnUserActivityStart | src/main/java/nl/jessedezwart/gamehouse/service/DiscordBotService.java:154-188 | Bot users, untracked users and non-PLAYING activities change nothing; otherwise the store is the result of the lookup's session closed and a fresh session appended |
| DiscordBot.DiscordBotService.OnUserActivityEnd | src/main/java/nl/jessedezwart/gamehouse/service/DiscordBotService.java:191-217 | Bot users, untracked users and non-PLAYING activities change nothing; otherwise the looked-up open session, if any, is closed and nothing else changes |
| DiscordBot.DiscordBotService.StartupScans | src/main/java/nl/jessedezwart/gamehouse/service/DiscordBotService.java:84-99 | The startup scan opens what a scan over the first cache opens. The delayed rescan then appends exactly what a scan over the cache at that moment opens, and nothing at all when the cache is unchanged |
| PlaytimeTotals.ClosedTotalsAreFrozen | src/main/java/nl/jessedezwart/gamehouse/controller/DashboardController.java:63-69 | When every session is closed, a key's total is the same at every read time |
| PlaytimeTotals.MergeNext | src/main/java/nl/jessedezwart/gamehouse/controller/DashboardController.java:68 | Merging the next session's playtime into the totals map gives the totals of the sessions up to and including it |
| PlaytimeTotals.Merge | src/main/java/nl/jessedezwart/gamehouse/controller/DashboardController.java:68 | `merge(key, d, Duration::plus)`: the key is added if absent, its total grows by `d` (starting from zero when new), and every other total is unchanged |
| PlaytimeTotals.Totals | src/main/java/nl/jessedezwart/gamehouse/controller/DashboardController.java:61-69 | The totals map has one entry per key that occurs, and each entry is the sum of the effective playtimes of that key's sessions |
| PlaytimeTotals.InsertByDuration | src/main/java/nl/jessedezwart/gamehouse/controller/DashboardController.java:72 | Inserting an entry adds exactly that entry, and keeps a list sorted longest first |
| PlaytimeTotals.SortByDuration | src/main/java/nl/jessedezwart/gamehouse/controller/DashboardController.java:71-72 | The sorted list is a permutation of the entries, ordered longest total first |
| PlaytimeTotals.EntriesOf | src/main/java/nl/jessedezwart/gamehouse/controller/DashboardController.java:71 | The entry set lists every key of the map exactly once, with its value |
| PlaytimeTotals.PermutedListing | src/main/java/nl/jessedezwart/gamehouse/controller/DashboardController.java:71-72 | Reordering a listing of the entries still lists each key exactly once with its total |
| PlaytimeTotals.ShowEntries | src/main/java/nl/jessedezwart/gamehouse/controller/DashboardController.java:73-75 | One row per entry, in order, showing its key and `formatDuration` of its total |
| PlaytimeTotals.ShownListingIsLeaderboard | src/main/java/nl/jessedezwart/gamehouse/controller/DashboardController.java:71-76 | A sorted listing of the totals, once shown, is a leaderboard: every key once, each shown as `formatDuration` of its reference total, longest total first |
| PlaytimeTotals.RankedTotals | src/main/java/nl/jessedezwart/gamehouse/controller/DashboardController.java:61-76 | The totals per key, sorted and shown, form a leaderboard: every key once, each shown as `formatDuration` of its total, longest first |
| PlaytimeTotals.GameLeaderboard | src/main/java/nl/jessedezwart/gamehouse/controller/DashboardController.java:57-80 | `getLeaderboard`: every game played exactly once, each shown as `formatDuration` of its total playtime, ranked longest first |
| PlaytimeTotals.UserLeaderboard | src/main/java/nl/jessedezwart/gamehouse/controller/DashboardController.java:111-133 | `getUserLeaderboard`: every username exactly once, each shown as `formatDuration` of its total playtime, ranked longest first |
| PlaytimeTotals.GamePlaytimeDistribution | src/main/java/nl/jessedezwart/gamehouse/controller/DashboardController.java:91-108 | One entry per game played, holding its total playtime in whole minutes truncated toward zero |
| PeakConcurrency.StepCountIsCeiling | src/main/java/nl/jessedezwart/gamehouse/controller/DashboardController.java:147-151 | A non-empty interval takes the ceiling of its length over 300 steps: that many steps cover it, and one fewer does not |
| PeakConcurrency.StepKeys | src/main/java/nl/jessedezwart/gamehouse/controller/DashboardController.java:147-152 | The walk of one session makes exactly `StepCount(start, end)` steps |
| PeakConcurrency.StepKeysAt | src/main/java/nl/jessedezwart/gamehouse/controller/DashboardController.java:147-151 | The n-th step of a walk is at `start + 300n`, which is before the end, and its key is that time's bucket |
| PeakConcurrency.AllStepKeysCount | src/main/java/nl/jessedezwart/gamehouse/controller/DashboardController.java:143-153 | All walks together make the sum of the sessions' step counts |
| PeakConcurrency.Increment | src/main/java/nl/jessedezwart/gamehouse/controller/DashboardController.java:150 | `merge(key, 1, Integer::sum)` adds one to that key's count and leaves every other key's count unchanged |
| PeakConcurrency.IncrementKeepsShape | src/main/java/nl/jessedezwart/gamehouse/controller/DashboardController.java:150 | The merge keeps the map in ascending key order with positive counts, and adds one to the sum of the counts |
| PeakConcurrency.AscendingLookup | src/main/java/nl/jessedezwart/gamehouse/controller/DashboardController.java:141 | In the ordered map a key's count is its entry's count, and later entries have larger keys |
| PeakConcurrency.CountedHasEntry | src/main/java/nl/jessedezwart/gamehouse/controller/DashboardController.java:141 | A key with a positive count has an entry in the map |
| PeakConcurrency.HistogramFromCounts | src/main/java/nl/jessedezwart/gamehouse/controller/DashboardController.java:155-160 | An ordered map whose counts are the key multiplicities of all walks is the histogram |
| PeakConcurrency.WalkStep | src/main/java/nl/jessedezwart/gamehouse/controller/DashboardController.java:148-151 | Counting the next pending step key moves it from pending into the map |
| PeakConcurrency.CountWalk | src/main/java/nl/jessedezwart/gamehouse/controller/DashboardController.java:147-152 | The inner loop counts every step key of one session's walk into the map |
| PeakConcurrency.Histogram | src/main/java/nl/jessedezwart/gamehouse/controller/DashboardController.java:141-153 | The result is ordered by strictly increasing key with positive counts. Each count is how many steps of all walks fall into that key, every stepped key has an entry, and the counts sum to the total number of steps |
| PeakConcurrency.GetPeakConcurrency | src/main/java/nl/jessedezwart/gamehouse/controller/DashboardController.java:137-161 | `getPeakConcurrency` with the bucket key as written: the histogram of all walks, in ascending key order |
| PeakConcurrency.AlignedPeakConcurrency | src/main/java/nl/jessedezwart/gamehouse/controller/DashboardController.java:148 | The same histogram over five-minute buckets (the corrected key) |
| PeakConcurrency.StepKey | src/main/java/nl/jessedezwart/gamehouse/controller/DashboardController.java:148 | The key as written lies at most 358 seconds before a step time after the epoch; before the epoch it lies within 59 seconds before to 299 seconds after |
| PeakConcurrency.FiveMinuteFloor | src/main/java/nl/jessedezwart/gamehouse/controller/DashboardController.java:148 | The corrected key is a multiple of 300 within the 300 seconds up to the step time |
| PeakConcurrency.StepKeyAlignment | src/main/java/nl/jessedezwart/gamehouse/controller/DashboardController.java:148 | The key as written is a multiple of 300 exactly when the step time is a whole minute |
| PeakConcurrency.StepKeyIsShiftedFloor | src/main/java/nl/jessedezwart/gamehouse/controller/DashboardController.java:148 | After the epoch, the key as written is the five-minute floor minus the seconds past the minute |
| PeakConcurrency.StepKeyAdvances | src/main/java/nl/jessedezwart/gamehouse/controller/DashboardController.java:148-151 | After the epoch, consecutive step times of one walk get keys exactly 300 apart |
| PeakConcurrency.StepKeyMisaligned | src/main/java/nl/jessedezwart/gamehouse/controller/DashboardController.java:148 | A step at second 90 gets key -30: before the step, off the five-minute grid, and not the intended bucket 0 |
| PeakConcurrency.FiveMinuteBucket | src/main/java/nl/jessedezwart/gamehouse/controller/DashboardController.java:148 | Every time in the 300 seconds from a bucket's start has that same corrected bucket |
| DashboardViews.CurrentSessions | src/main/java/nl/jessedezwart/gamehouse/controller/DashboardController.java:41-50 | One row per open session, in query order, with its username and game, showing `formatDuration` of the banked time plus the time since the start |
| DashboardViews.OpenRecordsHaveDistinctUsers | src/main/java/nl/jessedezwart/gamehouse/controller/DashboardController.java:38 | Under the one-open-session rule, the open-session query returns sessions of pairwise different users |
| DashboardViews.OpenSessionsTable | src/main/java/nl/jessedezwart/gamehouse/controller/DashboardController.java:37-54 | Every row of the table is an open record of the store, every open record appears, and each row shows `formatDuration` of that session's effective playtime |
| DashboardViews.OpenSessionsOnePerPlayer | src/main/java/nl/jessedezwart/gamehouse/controller/DashboardController.java:37-54 | Under the store invariant no user appears twice in the table, and each row shows `formatDuration` of the time since its session started |
| DashboardViews.SessionTimeline | src/main/java/nl/jessedezwart/gamehouse/controller/DashboardController.java:165-180 | One entry per session, in store order, from its start to `now` while open, or to start plus banked time once closed |
| DashboardViews.TimelineSpansArePlaytime | src/main/java/nl/jessedezwart/gamehouse/controller/DashboardController.java:169-179 | With open sessions unbanked, each entry spans exactly the session's playtime; a closed session's entry is the same at every read time |
| DashboardViews.TimelineSteps | src/main/java/nl/jessedezwart/gamehouse/controller/DashboardController.java:172 | The walks' total step count is the entries' spans measured in 300-second steps |
| DashboardViews.HistogramCoversTimeline | src/main/java/nl/jessedezwart/gamehouse/controller/DashboardController.java:143-152 | The counts of the concurrency histogram add up to the timeline's spans measured in 300-second steps |

## Left out

- Connecting to Discord is not modelled: the JDA builder, gateway intents, member loading that fills the tracked-user map, the presence listener wiring, and logging. The tracked users (id to name) and the guild's member cache (id to activities, absent when not cached) are parameters.
- Clock reads are not modelled: `Instant.now()` is a parameter `now`. A scan reads the clock once per created session in the source; the model uses one `now` for the whole scan.
- Threading is not modelled: the scheduler behind the delayed rescan (a plain second call in `StartupScans`) and concurrent requests. Each handler and query runs atomically on a snapshot.
- Spring and JPA are not modelled: request mapping, the `Model` attributes, view names, JSON rendering, and database-generated ids. The id of a record is its position in the store.
- The repository's derived queries are modelled on the in-memory store, `FindActiveByUser` as a scan over the records. Which open record the database returns, if a user had several, is not fixed by the model beyond "an open record of this user".
- Sub-second precision is not modelled: `Duration` nanoseconds and `Instant` nanos are dropped, and all times are whole seconds.
- String rendering is not modelled: two-digit zero padding in `formatDuration`, `Instant.toString()` of the histogram keys, and the order of entries inside the per-row `Map`s. Rows are datatypes.
- The timeline's filter on a missing start time is not modelled. The bot always sets the start time, so the filter keeps every record.
- SortByDuration: the source sorts a `HashMap`'s entries, whose order among equal totals is unspecified. The model sorts stably, and `IsLeaderboard` states no order among equal totals.
- In-place mutation of a loaded entity followed by `save` is modelled as replacing the record's value at its id. Aliasing between entity objects is not captured.
- StartupScans: only one guild is scanned per pass. The source loops over every guild the bot is in; the model takes one guild's member cache at each pass.

## Findings

| source | as written | input that shows it | evidently intended | confidence | as-written member | corrected member |
|---|---|---|---|---|---|---|
| src/main/java/nl/jessedezwart/gamehouse/controller/DashboardController.java:148 | The bucket key is the step time truncated to the minute, minus the step time's remainder modulo 300. It is on the five-minute grid only when the step time is a whole minute. | A session starting at epoch second 90 is bucketed at -30, 30 seconds before the epoch and off the grid. Its later steps land on -30 + 300n. | The five-minute bucket (comment "5-minute bucket"): the step time floored to a multiple of 300, 0 for second 90. | not executed | PeakConcurrency.StepKeyMisaligned | PeakConcurrency.FiveMinuteFloor |
