# Typing practice engine — Dafny model

This project models the core of a typing-practice web application. Its
browser pages run timed typing exercises: graded tests with a target speed,
and free practice in five modes. While the user types, the pages compute live
metrics: words per minute, positional errors and accuracy. The server stores
finished results and awards experience points (XP) and levels. It keeps a
daily streak, and it answers the per-user statistics and the weekly
leaderboard.

The modules follow the program's structure:

- `Metrics`: the live metrics calculator `calculateStats`. The test page and the practice page share the same code.
- `TestPage`: the graded-test page, as a class whose methods are the page's handlers and timer tick.
- `PracticePage`: the practice page, as a class in the same style.
- `Scoring`: `calculate_xp`, the levels, the pass rule, the pass bonus and the streak decision.
- `Accounts`: the stored records, and a `Store` class with the two routes that change a user: saving a practice session and submitting a test.
- `Content`: the practice texts, with the fallback for an unknown mode.
- `Aggregates`: the read queries (a condition kept in store order, and the 1000-row cap), sums and maxima.
- `UserStats`: the practice statistics, and the best practice session.
- `Leaderboard`: the weekly leaderboard, with a stable sort and Python's slice.
- `Dashboard`: the dashboard's level progress bar.
- `Common`: the `Option` type.

Inputs from outside the model are passed in as parameters:

- the clock, as the elapsed seconds, today's day number, the creation time and the week-ago cutoff;
- the random record ids;
- the answer to a text-loading request, as `Some(text)` or `None` for a failure.

Client metrics are integers, because they are the results of `Math.round`. Server-side speeds and accuracies are `real`.

In a few places the code behaves differently from what a user of the application would expect; the model follows the code:

- **Leaderboard ties.** A user would expect ties on speed to be broken by experience and then by time. The code sorts by best speed alone with Python's stable sort, so equal speeds keep the order in which users first appear among the week's sessions. `Leaderboard.TallyOrder`, `Leaderboard.SortDescSpec` and `Leaderboard.WeeklyBoardSpec` prove exactly that order.
- **Full accuracy.** A user would read an accuracy of 100 as meaning no errors. The code rounds, so one error in 200 or more characters still shows 100. `Metrics.AccuracyBounds` proves the direction that holds, and that the shown accuracy is 100 exactly when `200 * errors <= length`. `Metrics.OneErrorInTwoHundredRoundsToFull` exhibits the boundary.
- **Test duration on auto-submit.** When the countdown expires, the test's submission reports `duration - 1` seconds, not the whole duration. This is because `submitTest` reads the time left of the render that scheduled the last tick.
- **Practice duration.** A practice submission always reports the selected duration, however much of it was used.
- **Streak.** The streak never resets to zero. A day without activity only restarts it at 1 on the next active day.
- **Practice text on a failed load.** When the first request for a practice text fails, the text is empty: a run can start, but nothing can be typed against it, since every non-empty input is longer than the text and is dropped. A later failure keeps the previous text, which is still the one shown, and typing is checked against it as usual.
- **Typed text longer than the text.** The typed text never exceeds the text while a run is going (the invariant of `PracticePage.PracticeSession`). After a stop, a mode change can load a shorter text while the last typed text stays, so the two can then disagree in length until the next start or reset clears the typed text.

## Model

| member | source | states |
|---|---|---|
| Metrics.RoundDivNearest | frontend/src/pages/TestPage.js:84 | the rounded quotient is the integer nearest to `a / b`, halves rounded up, as `Math.round` |
| Metrics.TrimStartSpec | frontend/src/pages/TestPage.js:82 | `trim` removes exactly the maximal leading run of whitespace (JavaScript's `\s` set) |
| Metrics.TrimEndSpec | frontend/src/pages/TestPage.js:82 | `trim` removes exactly the maximal trailing run of whitespace |
| Metrics.TrimSpec | frontend/src/pages/TestPage.js:82 | the trimmed text is a slice of the input that neither starts nor ends with whitespace, and everything cut from either end is whitespace |
| Metrics.Trim | frontend/src/pages/TestPage.js:82 | defines `String.prototype.trim` as the leading run removed, then the trailing run; `TrimSpec` states what it keeps and cuts |
| Metrics.SplitWs | frontend/src/pages/TestPage.js:82 | `split(/\s+/)` always yields at least one piece (`[""]` for the empty string) |
| Metrics.SplitCountsTokens | frontend/src/pages/TestPage.js:82 | splitting a text without outer whitespace yields one piece per maximal run of non-whitespace |
| Metrics.SplitLengthIsWordCount | frontend/src/pages/TestPage.js:82 | `typed.trim().split(/\s+/).length` equals the number of whitespace-separated words, and 1 when there are none |
| Metrics.WordCount | frontend/src/pages/TestPage.js:82 | the word count used for speed is never below 1 |
| Metrics.ErrorCount | frontend/src/pages/TestPage.js:86-92 | the positional error count never exceeds the typed length |
| Metrics.Accuracy | frontend/src/pages/TestPage.js:94 | defines the accuracy as `Math.round((len - errors) / len * 100)`, or 100 before any input; `AccuracyBounds` and `AccuracyAtLeastNinety` state its range and thresholds |
| Metrics.NoErrorsIffPrefix | frontend/src/pages/TestPage.js:86-92 | there are no errors exactly when the typed text is a prefix of the reference text, including that typing past the end counts as an error |
| Metrics.DivAtLeast | frontend/src/pages/TestPage.js:94 | floor division by a positive divisor reaches `k` exactly when the dividend reaches `k` times the divisor (used for the rounding bounds) |
| Metrics.AccuracyBounds | frontend/src/pages/TestPage.js:94 | accuracy lies in [0, 100], is 100 without errors, and once something is typed is 100 exactly when `200 * errors <= length` |
| Metrics.OneErrorInTwoHundredRoundsToFull | frontend/src/pages/TestPage.js:94 | one error in 200 characters shows 100, one in 199 shows 99 |
| Metrics.AccuracyAtLeastNinety | frontend/src/pages/TestPage.js:94 | the rounded accuracy reaches 90 exactly when at most 10.5% of characters are wrong |
| Metrics.Speed | frontend/src/pages/TestPage.js:83-84 | defines the speed as the word count over the elapsed minutes, rounded, and 0 before any time has elapsed; `SpeedBounds` states its range |
| Metrics.SpeedBounds | frontend/src/pages/TestPage.js:83-84 | speed is never negative and is 0 until time has elapsed |
| Metrics.Stats | frontend/src/pages/TestPage.js:81-96 | defines the three metrics of `calculateStats` from the reference text, the typed text and the elapsed seconds; the lemmas below state their bounds and examples |
| Metrics.StatsBounds | frontend/src/pages/TestPage.js:81-96 | errors within the typed length, accuracy a percentage, speed non-negative and 0 at zero elapsed, and a perfect score for a prefix of the text |
| Metrics.StatsOfNothing | frontend/src/pages/TestPage.js:27-29 | the metrics of no input are the initial ones the page shows: 0 wpm, 100 accuracy, 0 errors |
| Metrics.StatsExamples | frontend/src/pages/TestPage.js:81-96 | empty input gives (0, 100, 0); "abc" against "axc" gives 1 error and 67 accuracy; a count of 3 words over 30 seconds gives 6 wpm |
| Metrics.WpmExample | frontend/src/pages/TestPage.js:82-84 | the typed text "hello world foo" after 30 seconds shows 6 wpm, through the whitespace word count |
| Metrics.CalculateStats | frontend/src/pages/TestPage.js:81-96 | the method (trim-and-split word count, rounding, error scan loop) computes exactly the metrics `Stats` specifies, which the lemmas above characterise |
| TestPage.TestSession.constructor | frontend/src/pages/TestPage.js:21-33 | after loading the test: not started, the full duration left, nothing typed, initial metrics, dialog closed |
| TestPage.TestSession.Start | frontend/src/pages/TestPage.js:76-79 | the test starts and the page invariant holds |
| TestPage.TestSession.Type | frontend/src/pages/TestPage.js:125-131 | typing is accepted only while started and not finished, and a candidate longer than the text is dropped; a new non-empty text sets the metrics to `Stats` at the elapsed time; otherwise they stay stale |
| TestPage.TestSession.Submit | frontend/src/pages/TestPage.js:98-110 | the test is finished and the payload carries the test id, the typed text, the shown metrics and `duration - timeLeft` |
| TestPage.TestSession.Tick | frontend/src/pages/TestPage.js:40-55 | a tick does nothing unless the test is running with time left and still shown; it decrements the time, and on the last second submits once with `duration - 1` and zeroes the time; a finished test never submits again |
| TestPage.TestSession.HandleExit | frontend/src/pages/TestPage.js:150-156 | leaving while running only opens the dialog; otherwise it navigates away |
| TestPage.TestSession.CancelExit | frontend/src/pages/TestPage.js:361-370 | "Continue Test" closes the dialog |
| TestPage.TestSession.ConfirmExit | frontend/src/pages/TestPage.js:158-161 | confirming leaves the page (its timer stops) without submitting |
| PracticePage.PracticeSession.constructor | frontend/src/pages/PracticePage.js:16-30 | the "words" mode, 60 seconds, initial metrics, and the first loaded text if the load succeeded |
| PracticePage.PracticeSession.SelectMode | frontend/src/pages/PracticePage.js:28-30 | the mode is fixed while running; a different mode reloads the text, which changes only if the load succeeds |
| PracticePage.PracticeSession.SelectDuration | frontend/src/pages/PracticePage.js:188-198 | one of the five offered durations, fixed while running |
| PracticePage.PracticeSession.Start | frontend/src/pages/PracticePage.js:64-72 | running, with the full duration left, nothing typed and the initial metrics |
| PracticePage.PracticeSession.Type | frontend/src/pages/PracticePage.js:129-135 | typing is accepted only while running and up to the text's length; a new non-empty text sets the metrics to `Stats` |
| PracticePage.PracticeSession.Finish | frontend/src/pages/PracticePage.js:91-116 | a stopped session posts nothing and stays as it is, so a run is posted at most once; a running one stops, posts nothing exactly when nothing was typed, and otherwise posts the mode, the selected duration, the typed and reference texts and the shown metrics |
| PracticePage.PracticeSession.Tick | frontend/src/pages/PracticePage.js:32-47 | counts down while running; on the last second finishes (posting as `Finish`) and zeroes the time |
| PracticePage.PracticeSession.Reset | frontend/src/pages/PracticePage.js:118-127 | stopped, nothing typed, the full duration shown, initial metrics, and the mode's text reloaded |
| Scoring.TruncToInt | backend/server.py:167 | Python's `int()` truncates toward zero |
| Scoring.CalculateXp | backend/server.py:166-168 | at least 1 point; otherwise the integer part of `wpm * accuracy / 100` |
| Scoring.CalculateXpMonotone | backend/server.py:166-168 | a faster or more accurate result never earns fewer points |
| Scoring.LevelFromXp | backend/server.py:170-178 | defines `get_level_from_xp` by the thresholds 100, 500 and 1500; `LevelBands`, `LevelMonotone` and `LevelExamples` state its bands |
| Scoring.LevelBands | backend/server.py:170-178 | a non-negative amount of XP has exactly the level whose threshold band contains it |
| Scoring.LevelMonotone | backend/server.py:170-178 | more XP never lowers the level |
| Scoring.LevelExamples | backend/server.py:170-178 | the boundaries 99/100, 499/500 and 1499/1500 |
| Scoring.Passed | backend/server.py:380 | defines the pass rule: at least the target speed and at least 90% accuracy; `PassExamples` exercises each side |
| Scoring.PassExamples | backend/server.py:380 | with target 35: (40, 91) passes, while (40, 89) and (30, 95) fail |
| Scoring.TestXpGained | backend/server.py:398-400 | defines a test's reward: `calculate_xp`, raised by `int(x * 1.5)` on a pass; `TestXpGainedBonus` states the bonus |
| Scoring.TestXpGainedBonus | backend/server.py:398-400 | the pass bonus is `base * 3 / 2` rounded down; it never lowers the reward, and raises it exactly when the base is at least 2 |
| Scoring.NextStreak | backend/server.py:185-208 | defines the streak decision: unchanged on the same day, one more after yesterday, otherwise 1, with today as the last day; `NextStreakSameDay` and `ConsecutiveDays` state its behaviour |
| Scoring.NextStreakSameDay | backend/server.py:180-208 | a second result on the same day changes nothing, and after an update the last active day is today |
| Scoring.ConsecutiveDays | backend/server.py:180-208 | results on k consecutive days give a streak of k, or k more when the streak was active the day before |
| Accounts.AwardProgress | backend/server.py:295-297 | an award strictly increases XP, never lowers the level, keeps the level equal to the level of the XP, and leaves the streak alone |
| Accounts.Award | backend/server.py:295-297 | defines the experience update: the points added and the level recomputed from the new total; `AwardProgress` states its effect |
| Accounts.Store.UpdateStreak | backend/server.py:180-208 | an unknown user is untouched; otherwise only that user's streak takes the `NextStreak` step |
| Accounts.Store.CreatePracticeSession | backend/server.py:278-307 | the session is appended with the reference text; the user gains `calculate_xp` points, the level is recomputed and the streak updated; the response reports the new XP, which is strictly higher |
| Accounts.Store.SubmitTest | backend/server.py:374-418 | an unknown test is a 404 that changes nothing; otherwise the result is appended with its pass verdict, the user gains the (bonus) points with the level recomputed and the streak updated, and XP strictly increases |
| Content.ModeOf | backend/server.py:348-354 | a name found in the table is that mode's name |
| Content.ModeOfName | backend/server.py:348-354 | every mode's name is found again |
| Content.ModeFor | backend/server.py:355 | the requested mode, or "words" |
| Content.PracticeContent | backend/server.py:355 | defines the route's answer as the text of `ModeFor`; `ModeForFallback` states which text a name gets |
| Content.ModeForFallback | backend/server.py:346-355 | a known mode name gets its own text; a name of no mode gets the "words" text |
| Aggregates.Cap | backend/server.py:319 | `to_list(1000)` keeps the first `min(n, 1000)` rows in order |
| Aggregates.FilterSpec | backend/server.py:319-320 | a query (the user's sessions and results here, the week's sessions at lines 461-464) returns exactly the rows its condition keeps, each once and in store order |
| Aggregates.Max2 | backend/server.py:474 | Python's `max(a, b)` is one of its arguments and at least both |
| Aggregates.MaxOfIsMaximum | backend/server.py:335 | `max` of a non-empty list is an element and bounds every element |
| Aggregates.MaxFromIsMaximum | backend/server.py:474 | the running maximum from 0 is 0 or an element, and bounds 0 and every element |
| Aggregates.SumAtMost | backend/server.py:333 | a sum is at most the count times a bound of the elements |
| Aggregates.MeanAtMostMax | backend/server.py:333-335 | the mean of a non-empty list is at most its maximum |
| UserStats.UserSessions | backend/server.py:319 | defines the user's sessions as the store's sessions of that user, in store order, capped at 1000; `Aggregates.FilterSpec` and `Aggregates.Cap` state its content |
| UserStats.UserResults | backend/server.py:320 | defines the user's test results in the same way |
| UserStats.GetPracticeStats | backend/server.py:317-344 | defines `get_practice_stats` over the user's sessions followed by their results; `PracticeStatsSpec`, `BestOfBoth` and `PracticeTimeIgnoresTests` state its fields |
| UserStats.PracticeStatsSpec | backend/server.py:317-344 | the count covers sessions and results together; with neither, every field is 0; otherwise the best speed is some record's speed, at least every speed and at least the mean |
| UserStats.BestOfBoth | backend/server.py:331-335 | over sessions followed by results, the maximum speed is a record's speed, bounds every speed and bounds the mean |
| UserStats.PracticeTimeIgnoresTests | backend/server.py:336 | the practice time is the sessions' total duration; test results never change it |
| UserStats.FirstMaxIndex | backend/server.py:496 | `max(sessions, key=wpm)` picks a session at least as fast as every other, and faster than every earlier one (the first maximal) |
| UserStats.GetUserBestStats | backend/server.py:492-497 | defines `get_user_best_stats` as zeros or the first fastest session's speed and accuracy; `BestStatsIsMaximum` states its value |
| UserStats.BestStatsIsMaximum | backend/server.py:492-497 | no sessions gives (0, 0); otherwise the best speed is the maximum session speed, the same value the practice statistics report without tests |
| Leaderboard.Recent | backend/server.py:461-464 | defines the week's sessions: the stored ones created at or after the cutoff, in store order, capped at 1000; `Aggregates.FilterSpec` and `Aggregates.Cap` state its content |
| Leaderboard.Tally | backend/server.py:467-474 | defines the aggregation loop over the week's sessions; `TallyReference` and `TallyOrder` state its keys, their order and the totals |
| Leaderboard.TallyReference | backend/server.py:467-474 | the aggregation has a key exactly for each user with a recent session, lists each once, and holds the sum, count and running maximum of that user's speeds |
| Leaderboard.FirstIndex | backend/server.py:467-470 | the position of a user's first session: that session is theirs and no earlier one is; the number of sessions when they have none |
| Leaderboard.TallyOrder | backend/server.py:467-470 | the aggregation lists exactly the users with a session, in order of their first session (the insertion order of the dictionary) |
| Leaderboard.BuildEntries | backend/server.py:477-487 | never more rows than aggregated users |
| Leaderboard.BuildEntriesMembers | backend/server.py:477-487 | there is a row for an aggregated user exactly when the user document exists |
| Leaderboard.BuildEntriesRows | backend/server.py:477-487 | the rows are, one for one and in order, the rows of the aggregated users that have a user document |
| Leaderboard.InsertPerm | backend/server.py:489 | inserting adds the new row and keeps every other one |
| Leaderboard.InsertSorted | backend/server.py:489 | inserting into a list sorted by speed (highest first) keeps it sorted |
| Leaderboard.InsertStable | backend/server.py:489 | the inserted row goes after every row of equal speed |
| Leaderboard.SortDesc | backend/server.py:489 | defines `sort(key=wpm, reverse=True)` by insertion; `SortDescSpec` states that it is the stable descending sort |
| Leaderboard.SortDescSpec | backend/server.py:489 | `sort(key=wpm, reverse=True)` orders by speed, highest first, is a permutation, and keeps the input order among equal speeds |
| Leaderboard.Slice | backend/server.py:490 | `[:limit]` is a prefix of `min(limit, n)` rows, or for a negative limit drops `-limit` rows from the end |
| Leaderboard.WeeklyBoard | backend/server.py:456-490 | defines the route's answer: the full board cut by `[:limit]`; `WeeklyBoardSpec` states its content |
| Leaderboard.GetWeeklyLeaderboard | backend/server.py:456-490 | the route's aggregation loop and row loop, followed by the sort and the slice, compute exactly `WeeklyBoard` |
| Leaderboard.BoardUsersSpec | backend/server.py:467-482 | the board's users are exactly the users with a document and a recent session, in order of their first recent session, so each appears once |
| Leaderboard.WeeklyBoardSpec | backend/server.py:456-490 | the board is sorted by speed, has at most `limit` rows and is a prefix of the full board; the full board has a row exactly for each user with a recent session and a user document, carrying that user's reference totals; it is a reordering of those rows, one per user, that keeps rows of equal speed in order of their users' first recent session |
| Leaderboard.BoardIsSortedPrefix | backend/server.py:489-490 | the answer is sorted by speed, highest first, has at most `limit` rows and is a prefix of the full board |
| Leaderboard.FullBoardIsRows | backend/server.py:477-489 | the full board reorders the rows of the board's users, one each, keeping rows of equal speed in the users' first-session order |
| Leaderboard.FullBoardMembers | backend/server.py:477-489 | a row of the full board is the row of a user with a document and a recent session, with that user's reference totals, and every such user has one |
| Leaderboard.EntriesAreRows | backend/server.py:477-487 | the built rows are, in order, the rows of the board's users with their reference totals |
| Leaderboard.EntryBounds | backend/server.py:481-485 | every row's best speed is non-negative and at least its mean speed |
| Leaderboard.MeanAtMostBest | backend/server.py:474-484 | the mean of a non-empty list of speeds is at most their running maximum from 0, which is not negative |
| Dashboard.ProgressFollowsLevel | frontend/src/pages/GamesPage.js:40-46 | below the last level the bar starts at the threshold of the user's level, spans the distance to the next threshold, and fills in [0, 100) |
| Dashboard.ProgressAtExpert | frontend/src/pages/GamesPage.js:45 | at the last level the bar spans 500 points, fills in [0, 100], and is full exactly from 2000 XP |
| Dashboard.ProgressOfNothing | frontend/src/pages/GamesPage.js:41 | a missing user or XP reads as 0: an empty bar toward 100 |
| Dashboard.FractionBelowOne | frontend/src/pages/GamesPage.js:42-44 | a fill of `c` out of `t > c` points lies in [0, 100) |
| Dashboard.GetXpProgress | frontend/src/pages/GamesPage.js:40-46 | defines `getXPProgress` over the three lower bands and the capped last one; `ProgressFollowsLevel`, `ProgressAtExpert` and `ProgressOfNothing` state its values |

## Left out

- Rounding of server responses: `round(x, 2)` on the statistics and the leaderboard speeds is not modelled. Averages and maxima are exact reals.
- Leaderboard.WeeklyBoardSpec: the server sorts on the rounded `round(best_wpm, 2)` (backend/server.py:483, 489), so two best speeds that round to the same value tie there and keep first-session order, while the model orders them by their exact values.
- Floating point in general: `int(wpm * (accuracy / 100))`, the pass bonus's `* 1.5`, and the page's `/ 60` and `/ 100` divisions are modelled in exact arithmetic. The page's rounded quotients are exact rationals.
- Timers and React scheduling:
  - `setInterval`, `setTimeout` and input focus are left out.
  - Each timer tick is one `Tick` call, applied atomically.
  - Stale closures of the interval callback, such as typing in the same second as the last tick, are not modelled.
- Practice-page reloads: the text reload that follows a mode change or a reset is applied in the same step, as a `loaded` parameter.
- Test loading failure (`fetchTest` navigating away) is left out; the test page model starts from a loaded test.
- Accounts.Store.CreatePracticeSession: each request is applied as one atomic step, one request at a time. The server reads the user's XP at authentication and writes `xp + gained` with `$set` after several awaits (backend/server.py:296, 301), so two requests in flight for the same user can lose an award, and the stored XP can even go down; "XP strictly increases" holds only for requests served one after another. The lost update is not modelled.
- Accounts.Store.SubmitTest: applied atomically and one at a time, as above; the read of `user["xp"]` and the `$set` of the new total (backend/server.py:402, 407) can lose an award under concurrent requests, which is not modelled.
- Accounts.Store.UpdateStreak: applied atomically and one at a time; the server's check of the last practice date followed by `$inc` or `$set` (backend/server.py:185-207) can count one day twice under concurrent requests, which is not modelled.
- Network and persistence:
  - HTTP, authentication and MongoDB are left out.
  - The server's `user` is the authenticated user's stored document.
  - The store is a map of users and sequences of records.
  - A failed submission and the toasts are left out.
- String semantics:
  - String lengths and indices are in Unicode characters; JavaScript counts UTF-16 code units.
  - The leaderboard's cutoff is an integer time, where the server compares ISO date strings.
- Paste blocking, the rendered character diff and the fetch of the refreshed user after a submission are presentation and are left out.
- Routes not in the model: the history routes, the global leaderboard, registration and login, the admin routes and the default-test seeding.
- `s.get("duration", 0)` in the practice time: stored sessions always carry a duration, so the default is not modelled.
