# Oagunth time-tracking client: a Dafny model of its view models

Oagunth is a time-tracking client: a user books, week by week, how much of each
working day went to which activity, saves the week and finally submits it.
This project models the client's view-model core and proves properties of it:

- **Entry** (`ActivityLogs.ActivityLogViewModel`): one activity's time on one
  day. It moves up or down a quarter of a day at a time. An increment is
  refused when the day is already full. A decrement never goes below zero.
  Every change of `time` is copied into the entry's stored log.
- **Day** (`DailyCalendar.UserDailyCalendarViewModel`): the entries of one date,
  a running total refreshed after every change, and an `isActive` flag. Its
  operations are building the day from logs, adding an activity, removing an
  entry, listing the logs, and listing the catalog activities not yet
  booked.
- **Week** (`WeeklyCalendarView.UserWeeklyCalendarViewModel`): one day per date of
  the week, earliest first. It also holds:
  - a total and a completeness flag;
  - an action rule (save / submit / locked), derived from the status the
    backend gave the week. Setting the rule to locked deactivates every day.

  Saving builds one request item per entry, day by day. Submitting names the
  week. Only a delivered call changes the status (to Saved or Submitted) and refreshes the week.
- **Month** (`MonthlyCalendarView.UserMonthlyCalendarViewModel`): builds the month
  in four steps:
  - keeps the weeks of the backend calendar that have dates;
  - pairs each with its decoded status;
  - sorts them;
  - builds one week per pair, handing each the month's logs that fall between
    its first and last date.

  Any failure leaves the month with no weeks.
- **Responses and requests** (`Responses`, `Requests`, `ApiErrors`): the
  payloads, and the decoding of a week's status string.

Modelling choices:

- Times are natural numbers of quarters of a day (`QuartersPerDay = 4`). The
  client only ever moves them by 0.25 from a backend value.
- Dates are calendar `(year, month, day)` triples, ordered chronologically.
- Identifiers are opaque values compared for equality.
- Swift's `sorted()` is a stable insertion sort over a "comes before" relation
  (`Sorting.Sort`).
- Every Combine pipeline becomes a direct call:
  - What the network answered is a parameter: `SyncOutcome`, or a `Result`
    for the two fetches.
  - The value a subscriber receives is a method call (`Send`,
    `ReceiveWeek`).
  - An assignment together with its `didSet` observer is one method
    (`SetTime`, `SetTimeTrackingState`).
- `Save` and `Submit` return the call they hand to the API client; `None` when
  they send nothing.

Where the specification and the code differ, the model follows the code:

- **"Saved" is never decoded.** `getStatusEnum` only recognises "New" and
  "Submitted". A month whose calendar has a week with dates whose first
  matching status reads "Saved" therefore fails to assemble and shows no
  week (`SavedWeekFailsPairing`). The week-level rule for Saved is still
  modelled, because `save` sets the status locally.
- **The status lookup matches on week number only.** The week year is never
  compared (`StatusIgnoresWeekYear`).
- **A Saved week that is not complete keeps its previous rule.**
- **Saving sends nothing when any day has no entry.**
- **`addActivity` does not refuse an activity already booked that day.**

## Model

| member | source | states |
|---|---|---|
| `ActivityLogs.IncrementAcceptedIff` | client/OagunthApp/OagunthApp/Oagunth/ActivityLog/ActivityLogViewModel.swift:39-46 | an increment adds one quarter exactly when the day total read before it leaves room for one more quarter, and otherwise leaves the time unchanged |
| `ActivityLogs.DecrementAcceptedIff` | client/OagunthApp/OagunthApp/Oagunth/ActivityLog/ActivityLogViewModel.swift:48-54 | a decrement removes one quarter exactly when the entry has one, and a zero time stays zero |
| `ActivityLogs.IncrementThenDecrement` | client/OagunthApp/OagunthApp/Oagunth/ActivityLog/ActivityLogViewModel.swift:39-54 | an accepted increment followed by a decrement gives back the original time |
| `ActivityLogs.ActivityLogViewModel.constructor` | client/OagunthApp/OagunthApp/Oagunth/ActivityLog/ActivityLogViewModel.swift:26-35 | the entry starts with the log's time, the given name and the log's activity, with time and stored log in step |
| `ActivityLogs.ActivityLogViewModel.SetTime` | client/OagunthApp/OagunthApp/Oagunth/ActivityLog/ActivityLogViewModel.swift:20-24 | after any write of `time` the stored log carries the new time and is otherwise unchanged |
| `ActivityLogs.ActivityLogViewModel.Increment` | client/OagunthApp/OagunthApp/Oagunth/ActivityLog/ActivityLogViewModel.swift:39-46 | the new time is the accepted-or-refused increment gated on the day total, and the log stays in step |
| `ActivityLogs.ActivityLogViewModel.Decrement` | client/OagunthApp/OagunthApp/Oagunth/ActivityLog/ActivityLogViewModel.swift:48-54 | the new time is one quarter less unless that would go below zero, and the log stays in step |
| `Responses.DescriptionInjective` | client/OagunthApp/OagunthApp/Oagunth/OagunthAPI/Responses.swift:29-44 | two statuses have the same spelling exactly when they are the same status |
| `Responses.GetStatusEnum` | client/OagunthApp/OagunthApp/Oagunth/OagunthAPI/Responses.swift:53-62 | "New" decodes to New, "Submitted" to Submitted, every other string to nothing, and nothing ever decodes to Saved |
| `Responses.StatusRoundTrip` | client/OagunthApp/OagunthApp/Oagunth/OagunthAPI/Responses.swift:29-62 | decoding a status's own spelling gives it back for New and Submitted and gives nothing for Saved |
| `Responses.GetStatusEnumIgnoresWeek` | client/OagunthApp/OagunthApp/Oagunth/OagunthAPI/Responses.swift:53-62 | the decoded status depends on the status string alone, not on the week year or number |
| `DailyCalendar.FindActivity` | client/OagunthApp/OagunthApp/Oagunth/UserDailyCalendar/UserDailyCalendarViewModel.swift:69 | the lookup finds an activity exactly when one in the catalog has the id, and then it is the first such activity |
| `DailyCalendar.UserDailyCalendarViewModel.GetLogs` | client/OagunthApp/OagunthApp/Oagunth/UserDailyCalendar/UserDailyCalendarViewModel.swift:28-30 | one log per entry, in entry order, each with the entry's activity and current time and dated with this day |
| `DailyCalendar.FirstIndex` | client/OagunthApp/OagunthApp/Oagunth/UserDailyCalendar/UserDailyCalendarViewModel.swift:52 | no index exactly when the id is absent; otherwise an index holding the id with no earlier one holding it |
| `DailyCalendar.Remaining` | client/OagunthApp/OagunthApp/Oagunth/UserDailyCalendar/UserDailyCalendarViewModel.swift:32-36 | an activity remains exactly when it is in the catalog and no entry of the day books its id |
| `DailyCalendar.RemainingKeepsOrder` | client/OagunthApp/OagunthApp/Oagunth/UserDailyCalendar/UserDailyCalendarViewModel.swift:32-36 | the remaining activities keep catalog order: any split of the catalog splits the result the same way |
| `DailyCalendar.RemainingOfEmptyDay` | client/OagunthApp/OagunthApp/Oagunth/UserDailyCalendar/UserDailyCalendarViewModel.swift:32-36 | a day with no entry offers the whole catalog |
| `DailyCalendar.DayTotalAfterIncrement` | client/OagunthApp/OagunthApp/Oagunth/UserDailyCalendar/UserDailyCalendarViewModel.swift:60-62 | after incrementing one entry the day total grows by one quarter when there was room and is unchanged otherwise; a day at most full stays at most full |
| `DailyCalendar.DayTotalAfterDecrement` | client/OagunthApp/OagunthApp/Oagunth/UserDailyCalendar/UserDailyCalendarViewModel.swift:60-62 | after decrementing one entry the day total is one quarter less when that entry had a quarter and unchanged otherwise |
| `DailyCalendar.EntriesAppend` | client/OagunthApp/OagunthApp/Oagunth/UserDailyCalendar/UserDailyCalendarViewModel.swift:38-49 | appending a new entry with no time keeps the entries distinct objects, each in step with its log, and keeps their total |
| `DailyCalendar.EntriesRemove` | client/OagunthApp/OagunthApp/Oagunth/UserDailyCalendar/UserDailyCalendarViewModel.swift:51-58 | removing one entry keeps the rest distinct and in step, and lowers their total by exactly the removed entry's time |
| `DailyCalendar.EntriesMatchLogs` | client/OagunthApp/OagunthApp/Oagunth/UserDailyCalendar/UserDailyCalendarViewModel.swift:28-30 | entries built from logs carry the logs' times, and when all the logs are of the day the listed logs are exactly the logs the day was built from |
| `DailyCalendar.MakeEntries` | client/OagunthApp/OagunthApp/Oagunth/UserDailyCalendar/UserDailyCalendarViewModel.swift:67-78 | one new entry per log, in log order, carrying that log, its time and the name of its activity, all distinct and in step |
| `DailyCalendar.UserDailyCalendarViewModel.constructor` | client/OagunthApp/OagunthApp/Oagunth/UserDailyCalendar/UserDailyCalendarViewModel.swift:64-80 | an active day with one entry per log in log order, each named after its activity, whose total is the sum of the logs' times, and which gives back exactly its logs when they are all of that date |
| `DailyCalendar.UserDailyCalendarViewModel.Refresh` | client/OagunthApp/OagunthApp/Oagunth/UserDailyCalendar/UserDailyCalendarViewModel.swift:60-62 | the total becomes the sum of the entries' times |
| `DailyCalendar.UserDailyCalendarViewModel.AddActivity` | client/OagunthApp/OagunthApp/Oagunth/UserDailyCalendar/UserDailyCalendarViewModel.swift:38-49 | one new entry for the activity with no time is appended after the unchanged earlier entries; the total and the flag are unchanged and the day stays valid |
| `DailyCalendar.UserDailyCalendarViewModel.RemoveLog` | client/OagunthApp/OagunthApp/Oagunth/UserDailyCalendar/UserDailyCalendarViewModel.swift:51-58 | with no entry for that activity nothing changes; otherwise exactly the first such entry is removed and the total drops by its time |
| `DailyCalendar.UserDailyCalendarViewModel.RemoveAt` | client/OagunthApp/OagunthApp/Oagunth/UserDailyCalendar/UserDailyCalendarViewModel.swift:56-57 | the entry at the position is dropped, the others keep their order, and the refreshed total is lower by its time |
| `DailyCalendar.UserDailyCalendarViewModel.IncrementAt` | client/OagunthApp/OagunthApp/Oagunth/UserDailyCalendar/UserDailyCalendarViewModel.swift:71-76 | an increment through the day followed by its refresh: the total rises by one quarter only when there was room, and a day at most full never exceeds a full day |
| `DailyCalendar.UserDailyCalendarViewModel.DecrementAt` | client/OagunthApp/OagunthApp/Oagunth/UserDailyCalendar/UserDailyCalendarViewModel.swift:71-76 | a decrement followed by its refresh: the total drops by one quarter exactly when the entry had one |
| `WeeklyCalendarView.RuleTable` | client/OagunthApp/OagunthApp/Oagunth/UserWeeklyCalendar/UserWeeklyCalendarViewModel.swift:73-82 | a New week can be saved, a Submitted week is locked, a complete Saved week can be submitted and an incomplete Saved week keeps the rule it had |
| `WeeklyCalendarView.RefreshRuleIdempotent` | client/OagunthApp/OagunthApp/Oagunth/UserWeeklyCalendar/UserWeeklyCalendarViewModel.swift:63-83 | refreshing twice leaves the same rule as refreshing once |
| `WeeklyCalendarView.SortedDaysAscending` | client/OagunthApp/OagunthApp/Oagunth/UserWeeklyCalendar/UserWeeklyCalendarViewModel.swift:161 | the sorted dates are a permutation of the week's dates, earliest first |
| `WeeklyCalendarView.SortedDaysSameDates` | client/OagunthApp/OagunthApp/Oagunth/UserWeeklyCalendar/UserWeeklyCalendarViewModel.swift:161 | a date is among the sorted dates exactly when it is a date of the week |
| `WeeklyCalendarView.CompleteIffEveryDayFull` | client/OagunthApp/OagunthApp/Oagunth/UserWeeklyCalendar/UserWeeklyCalendarViewModel.swift:72 | with no day over a full day, the week total equals a full day per date exactly when every day is full |
| `WeeklyCalendarView.SaveRequestBuiltIff` | client/OagunthApp/OagunthApp/Oagunth/UserWeeklyCalendar/UserWeeklyCalendarViewModel.swift:110-144 | a save request exists exactly when the week has a day and every day has at least one entry |
| `WeeklyCalendarView.SaveRequestListsEveryEntry` | client/OagunthApp/OagunthApp/Oagunth/UserWeeklyCalendar/UserWeeklyCalendarViewModel.swift:117-142 | the request has one item per entry; entry j of day i is the item at that day's offset plus j, carrying the date of the day's first log and the entry's time and activity |
| `WeeklyCalendarView.MakeDay` | client/OagunthApp/OagunthApp/Oagunth/UserWeeklyCalendar/UserWeeklyCalendarViewModel.swift:162-163 | a new active day for the date, valid, holding exactly the logs of that date |
| `WeeklyCalendarView.MakeDays` | client/OagunthApp/OagunthApp/Oagunth/UserWeeklyCalendar/UserWeeklyCalendarViewModel.swift:161-165 | one new active day per date, in the given order, each valid and holding exactly the logs of its date |
| `WeeklyCalendarView.UserWeeklyCalendarViewModel.constructor` | client/OagunthApp/OagunthApp/Oagunth/UserWeeklyCalendar/UserWeeklyCalendarViewModel.swift:156-176 | one new day per date, earliest first, each holding exactly its date's logs; the total, completeness and rule are those a refresh gives; only a Submitted week has its days deactivated |
| `WeeklyCalendarView.UserWeeklyCalendarViewModel.Populate` | client/OagunthApp/OagunthApp/Oagunth/UserWeeklyCalendar/UserWeeklyCalendarViewModel.swift:161-165 | the days become one new active day per date in date order, each holding its date's logs |
| `WeeklyCalendarView.UserWeeklyCalendarViewModel.SetTimeTrackingState` | client/OagunthApp/OagunthApp/Oagunth/UserWeeklyCalendar/UserWeeklyCalendarViewModel.swift:33-41 | the rule is set; locking deactivates every day, any other rule leaves the flags alone; nothing else in the days changes |
| `WeeklyCalendarView.UserWeeklyCalendarViewModel.Refresh` | client/OagunthApp/OagunthApp/Oagunth/UserWeeklyCalendar/UserWeeklyCalendarViewModel.swift:63-83 | the total is the sum of the day totals, complete means a full day per date, the rule follows the status table, and a Submitted week ends with no active day |
| `WeeklyCalendarView.UserWeeklyCalendarViewModel.BuildSaveRequest` | client/OagunthApp/OagunthApp/Oagunth/UserWeeklyCalendar/UserWeeklyCalendarViewModel.swift:111-144 | the loop builds exactly the request that lists every entry day by day, and builds none when there is no day or a day has no entry |
| `WeeklyCalendarView.UserWeeklyCalendarViewModel.ApplyStatus` | client/OagunthApp/OagunthApp/Oagunth/UserWeeklyCalendar/UserWeeklyCalendarViewModel.swift:104-105 | the week records the new status, then is as a refresh leaves it |
| `WeeklyCalendarView.UserWeeklyCalendarViewModel.Save` | client/OagunthApp/OagunthApp/Oagunth/UserWeeklyCalendar/UserWeeklyCalendarViewModel.swift:110-154 | the call sent is the week's request with the first day's date, or none; only a delivered save sets the status to Saved and refreshes; otherwise nothing changes |
| `WeeklyCalendarView.UserWeeklyCalendarViewModel.Send` | client/OagunthApp/OagunthApp/Oagunth/UserWeeklyCalendar/UserWeeklyCalendarViewModel.swift:145-153 | the call is sent; on delivery the status is recorded and the week refreshed, on failure the week is left as it was |
| `WeeklyCalendarView.UserWeeklyCalendarViewModel.Submit` | client/OagunthApp/OagunthApp/Oagunth/UserWeeklyCalendar/UserWeeklyCalendarViewModel.swift:85-108 | the call names the first day's month and year and the week number, or is absent with no day; a delivered submission sets Submitted, locks the week and deactivates every day; otherwise nothing changes |
| `MonthlyCalendarView.NonEmptyWeeks` | client/OagunthApp/OagunthApp/Oagunth/UserMonthlyCalendar/UserMonthlyCalendarViewModel.swift:48-50 | a week is kept exactly when it is in the calendar and has at least one date |
| `MonthlyCalendarView.NonEmptyWeeksKeepOrder` | client/OagunthApp/OagunthApp/Oagunth/UserMonthlyCalendar/UserMonthlyCalendarViewModel.swift:48-50 | the kept weeks are in calendar order |
| `MonthlyCalendarView.FindStatus` | client/OagunthApp/OagunthApp/Oagunth/UserMonthlyCalendar/UserMonthlyCalendarViewModel.swift:53-56 | no status exactly when none has the week number; otherwise the first one with that number |
| `MonthlyCalendarView.StatusIgnoresWeekYear` | client/OagunthApp/OagunthApp/Oagunth/UserMonthlyCalendar/UserMonthlyCalendarViewModel.swift:53-60 | weeks with the same number get the same status or error, whatever their year |
| `MonthlyCalendarView.SavedStatusIsRejected` | client/OagunthApp/OagunthApp/Oagunth/UserMonthlyCalendar/UserMonthlyCalendarViewModel.swift:58-60 | a week whose status reads "Saved" raises the decoding error |
| `MonthlyCalendarView.PairingSpec` | client/OagunthApp/OagunthApp/Oagunth/UserMonthlyCalendar/UserMonthlyCalendarViewModel.swift:47-65 | pairing succeeds exactly when every week has a status, and then pairs week i with its own status at position i; a failure is the error of the first week without one |
| `MonthlyCalendarView.SavedWeekFailsPairing` | client/OagunthApp/OagunthApp/Oagunth/UserMonthlyCalendar/UserMonthlyCalendarViewModel.swift:47-65 | one week reading "Saved" makes the whole pairing fail |
| `MonthlyCalendarView.WeeksWithStatus` | client/OagunthApp/OagunthApp/Oagunth/UserMonthlyCalendar/UserMonthlyCalendarViewModel.swift:47-65 | the loop's result, success or the first error, is the pairing of the weeks with dates |
| `MonthlyCalendarView.FirstFailureDecides` | client/OagunthApp/OagunthApp/Oagunth/UserMonthlyCalendar/UserMonthlyCalendarViewModel.swift:53-60 | when every earlier week has a status, the first week without one decides the error of the whole pairing |
| `MonthlyCalendarView.SortFuncAsWrittenCases` | client/OagunthApp/OagunthApp/Oagunth/UserMonthlyCalendar/UserMonthlyCalendarViewModel.swift:76-78 | within one year the comparator orders by week number, and an earlier year always comes first |
| `MonthlyCalendarView.SortFuncAsWrittenNotAsymmetric` | client/OagunthApp/OagunthApp/Oagunth/UserMonthlyCalendar/UserMonthlyCalendarViewModel.swift:76-78 | week 53 of 2020 and week 1 of 2021 each come before the other, so the comparator is no strict weak ordering |
| `MonthlyCalendarView.WeekPrecedesIsStrictWeakOrder` | client/OagunthApp/OagunthApp/Oagunth/UserMonthlyCalendar/UserMonthlyCalendarViewModel.swift:76-78 | ordering by week year, then week number, is a strict weak ordering |
| `MonthlyCalendarView.SortFuncAgreesWithinOneYear` | client/OagunthApp/OagunthApp/Oagunth/UserMonthlyCalendar/UserMonthlyCalendarViewModel.swift:76-83 | on weeks of a single year the comparator as written and the intended one sort identically |
| `MonthlyCalendarView.SortedWeeksAscending` | client/OagunthApp/OagunthApp/Oagunth/UserMonthlyCalendar/UserMonthlyCalendarViewModel.swift:83 | the sorted weeks are a permutation of the paired weeks in ascending week year and number |
| `MonthlyCalendarView.WeekLogSlice` | client/OagunthApp/OagunthApp/Oagunth/UserMonthlyCalendar/UserMonthlyCalendarViewModel.swift:98-109 | no log reaches a week when the month has no log or the week no date; otherwise only logs of the month |
| `MonthlyCalendarView.EarliestDateBound` | client/OagunthApp/OagunthApp/Oagunth/UserMonthlyCalendar/UserMonthlyCalendarViewModel.swift:99-101 | a date is on or after some date of the week exactly when it is on or after the first sorted date |
| `MonthlyCalendarView.LatestDateBound` | client/OagunthApp/OagunthApp/Oagunth/UserMonthlyCalendar/UserMonthlyCalendarViewModel.swift:99-102 | a date is on or before some date of the week exactly when it is on or before the last sorted date |
| `MonthlyCalendarView.WeekLogSliceSpan` | client/OagunthApp/OagunthApp/Oagunth/UserMonthlyCalendar/UserMonthlyCalendarViewModel.swift:106 | a log reaches the week exactly when it lies between some date of the week and some other |
| `MonthlyCalendarView.WeekLogSliceKeepsDayLogs` | client/OagunthApp/OagunthApp/Oagunth/UserMonthlyCalendar/UserMonthlyCalendarViewModel.swift:98-109 | for each date of the week, the slice holds exactly the month's logs of that date, in order |
| `MonthlyCalendarView.AssembledWeeks` | client/OagunthApp/OagunthApp/Oagunth/UserMonthlyCalendar/UserMonthlyCalendarViewModel.swift:74-90 | weeks are assembled exactly when both fetches succeed and every week with dates has a status |
| `MonthlyCalendarView.AssembledWeeksFromCalendar` | client/OagunthApp/OagunthApp/Oagunth/UserMonthlyCalendar/UserMonthlyCalendarViewModel.swift:47-65 | every assembled week is a week of the calendar with dates, carrying the status its number maps to |
| `MonthlyCalendarView.MakeWeek` | client/OagunthApp/OagunthApp/Oagunth/UserMonthlyCalendar/UserMonthlyCalendarViewModel.swift:21 | a new week for the paired week whose days, in date order, hold exactly the month's logs of each date |
| `MonthlyCalendarView.UserMonthlyCalendarViewModel.constructor` | client/OagunthApp/OagunthApp/Oagunth/UserMonthlyCalendar/UserMonthlyCalendarViewModel.swift:17-38 | a failed fetch or pairing leaves no week; otherwise one new week per assembled week, in sorted order |
| `MonthlyCalendarView.UserMonthlyCalendarViewModel.ReceiveWeeks` | client/OagunthApp/OagunthApp/Oagunth/UserMonthlyCalendar/UserMonthlyCalendarViewModel.swift:32-36 | the weeks arriving in order are appended in that order after the unchanged earlier ones |
| `MonthlyCalendarView.UserMonthlyCalendarViewModel.ReceiveWeek` | client/OagunthApp/OagunthApp/Oagunth/UserMonthlyCalendar/UserMonthlyCalendarViewModel.swift:32-36 | one arriving week is appended as a new week after the unchanged earlier ones |

## Left out

- Combine scheduling (`receive(on:)`, `sink`, `store(in:)`) is left out. Pipelines are direct calls, and the `@Published` notifications are modelled only where a subscriber acts on them: the day refreshing after an entry's time changes (`IncrementAt`, `DecrementAt`).
- After the week's constructor, the week does not refresh itself when a day's total changes. The source subscribes with `.last()` over a finished sequence, which fires once at construction. The model's week is therefore as fresh as its last `Refresh`.
- Doubles are not modelled. Times are whole quarters, since the client only ever adds or subtracts 0.25.
- `DateFormatter`, `Foundation.Calendar` components and the `weekLabel`/`weekStartsOn`/`dateString` strings are not modelled. Dates are calendar triples, so the component extraction in `save`/`submit` cannot fail and is not modelled.
- The debugging counter `n` and the `debugPrint` calls in the week's `refresh` and in the sinks are left out, because they do not affect state.
- The API client object (`OagunthFetchable`) is not modelled. Its answers are parameters: `Result` for the two fetches, `SyncOutcome` for save and submit.
- Network I/O, JSON decoding and the `OagunthClient` implementation are left out.
- The re-wrapping of a pairing error as `parsing(desc: error.localizedDescription)` is left out. The month only observes that some failure happened.
- Swift's `sorted(by:)` internals are not modelled. The sort is a stable insertion sort. Swift leaves the order unspecified for a comparator that is not a strict weak ordering, and the week comparator as written is not one (see Findings), so the month sorts with the intended comparator.
- The force-unwrapped catalog lookup in the day's constructor is a precondition, since a missing activity crashes the app. The week and month constructors pass that precondition on.
- Identity (`id = UUID()`) of the view models is left out. Object identity stands for it.
- `UserDailyCalendarViewModel.RemainingActivities` has no contract of its own. It is `Remaining` over the day's booked ids, whose properties are proved.
- `MonthlyCalendarView.UserMonthlyCalendarViewModel.constructor` states which weeks are built, in what order, and that they are new. What each week's days hold is stated by `MakeWeek` when the week is built and is not restated for the finished month.
- `MonthlyCalendarView.MakeWeek` does not restate the week's validity and refreshed state, which the week constructor states.
- `ActivityLogs.ActivityLogViewModel.Increment` does not model the closure reading the day total. The total is passed in; `IncrementAt` passes the day's own total.

## Findings

| source | as written | input that shows it | evidently intended | confidence | as-written member | corrected member |
|---|---|---|---|---|---|---|
| client/OagunthApp/OagunthApp/Oagunth/UserMonthlyCalendar/UserMonthlyCalendarViewModel.swift:76-78 | a week comes first when its year is earlier OR its week number is smaller, whatever the years | week 53 of 2020 and week 1 of 2021 (a January 2021 month): each comes before the other | order by week year, then by week number within the year | not executed | `MonthlyCalendarView.SortFuncAsWrittenNotAsymmetric` | `MonthlyCalendarView.SortedWeeksAscending` |
