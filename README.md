# toggl-to-tempo-sync in Dafny

A Dafny model of the bookkeeping at the core of toggl-to-tempo-sync. The tool
copies Toggl Track time entries into Jira Tempo worklogs. Around that it keeps a
record of what was synced, sums a month's hours and prints an issue
hierarchy's time.

The network calls, the SQLite file, the clock and the keyboard are inputs of
the model:

- the Toggl answer is an `EntriesSource` function and a project list;
- the Tempo call's outcome is an `Acceptance` function;
- the operator's typed lines are a sequence of `Answer`s;
- today's date is a parameter;
- SHA-256 is an uninterpreted `digest` function;
- the Jira calls are the oracles of a `Jira` value.

Everything else is stated and proved in Dafny.

| module (file) | models |
|---|---|
| `Wrappers` (wrappers.dfy) | `Option` and `Result` |
| `Text` (text.dfy) | `str.strip`, `in`, `split(sep)[0]` and `[1]`, ASCII `lower()`, code-point string order, `"".join` |
| `Decimal`, `DecimalFacts` (decimal.dfy) | `str(int)`, zero padding, `int()` of text; `int(str(i)) == i` |
| `Calendar` (calendar.dfy) | `datetime.date` of the proleptic Gregorian calendar, `weekday()`, `± timedelta(days=n)` with its `OverflowError` |
| `DateText` (datetext.dfy) | `strftime`/`strptime` for `%Y-%m-%d` and `%Y-%m-%dT%H:%M:%S+00:00`, with both round trips |
| `Sorting` (sorting.dfy) | `sorted(s, key=...)`: sorted, a permutation, stable |
| `Lists` (lists.dfy) | list comprehensions with a condition |
| `TogglApi` (toggle_api.dfy) | `TogglTrackAPI`: credentials, URLs, `get_projects` and the whole `get_time_entries` pipeline |
| `Sync` (sync.dfy) | `sync.py`: issue key and description parsing, `input_or_default`, `input_choice`, `seconds_to_human_readable`, the per-entry retry/skip/manual entry/open/exit loop, the loop over the entries, `get_past_working_day` |
| `SyncTracker` (sync_tracker.dfy) | `SyncTracker` as a class over a map from entry hash to row |
| `Summary` (summary.dfy) | `LogsSummary` as a class over the per-day hours map, `get_left_justified_string` |
| `RecordsCli` (records_cli.dfy) | `show_stats`, the `clear_all` guard, the minutes `list_records` shows |
| `IssueLogs` (issue_logs.dfy) | `collect_issues` (breadth-first walk), `get_time_entries` (per-user sums) and `process_issues` |
| `Progress` (progress.dfy) | `SyncProgressDisplay` as a class with its counters, the summary's success-rate colour, `create_api_loader` |

The code that works in place is modelled by classes and methods with loops:

- the SQLite table, the `hours_by_day` dict and the progress counters are class fields;
- the grouping, rounding, statistics, breadth-first walk and entry loops are `while` loops.

Each such method is proved equal to a specification function, and the
properties are proved about that function.

Where the code and its documentation disagree, the model follows the code:

- `sync.py` passes `group=True`, so the worklogs it submits are grouped entries.
- Grouping keeps the first entry's id only.
- `sync` never consults the sync record store, so no end-to-end duplicate guarantee is claimed.

## Model

| member | source | states |
|---|---|---|
| `TogglApi.Credentials` | toggl_track_to_jira_tempo/toggle_api.py:14-30 | a ValueError exactly when username or password is missing and there is no token; user and password win over the token |
| `TogglApi.CredentialsSplit` | toggl_track_to_jira_tempo/toggle_api.py:19-28 | the server's split at the first colon gives back user and password, or the token and "api_token" |
| `TogglApi.AbsoluteUrl` | toggl_track_to_jira_tempo/toggle_api.py:33-34 | the URL is "https://api.track.toggl.com/api/v9" followed by the endpoint |
| `TogglApi.GetProjects` | toggl_track_to_jira_tempo/toggle_api.py:129-137 | all projects for no names, otherwise exactly the projects whose name is listed |
| `TogglApi.UpperBoundNextDay` | toggl_track_to_jira_tempo/toggle_api.py:63-68 | the bound sent is midnight of the day after the end date, read back as such; it fails only for 9999-12-31 |
| `TogglApi.SkipBySubstring` | toggl_track_to_jira_tempo/toggle_api.py:76-79 | keeps exactly the entries whose description lacks the substring; an empty substring keeps all |
| `TogglApi.EmptySubstringInEveryText` | toggl_track_to_jira_tempo/toggle_api.py:76 | the empty text occurs in every description, so without the guard the filter would drop everything |
| `TogglApi.ExcludeTags` | toggl_track_to_jira_tempo/toggle_api.py:81-84 | keeps exactly the entries carrying none of the tags |
| `TogglApi.ExcludeProjects` | toggl_track_to_jira_tempo/toggle_api.py:86-91 | drops exactly the entries whose project is one of the named projects; no names keeps all |
| `TogglApi.IncludeTags` | toggl_track_to_jira_tempo/toggle_api.py:93-96 | keeps exactly the entries carrying one of the tags; no tags keeps all |
| `TogglApi.OnDay` | toggl_track_to_jira_tempo/toggle_api.py:98-106 | fails exactly when some start does not parse; otherwise keeps exactly the entries starting on the day |
| `TogglApi.EntryDateOfTimestamp` | toggl_track_to_jira_tempo/toggle_api.py:114 | the text before "T" of a timestamp is its date as "%Y-%m-%d" |
| `TogglApi.GroupKeyInjective` | toggl_track_to_jira_tempo/toggle_api.py:113-115 | for date parts of one length, two keys are equal iff descriptions and dates are |
| `TogglApi.GroupedKeys` | toggl_track_to_jira_tempo/toggle_api.py:108-121 | the groups have distinct keys, exactly the keys of the input |
| `TogglApi.GroupedEntries` | toggl_track_to_jira_tempo/toggle_api.py:108-121 | each group is the first entry with its key, with the summed duration of all entries with that key, in first-occurrence order |
| `TogglApi.GroupedTotal` | toggl_track_to_jira_tempo/toggle_api.py:117-118 | grouping keeps the total duration |
| `TogglApi.GroupedFrom` | toggl_track_to_jira_tempo/toggle_api.py:117-120 | every group is an input entry with only its duration changed |
| `TogglApi.GroupEntries` | toggl_track_to_jira_tempo/toggle_api.py:111-121 | the dict-filling loop yields the grouping specified above |
| `TogglApi.RoundDiv` | toggl_track_to_jira_tempo/toggle_api.py:125 | round(n/g) is within half of g of n, and an exact half goes to the even quotient |
| `TogglApi.RoundDivNearest` | toggl_track_to_jira_tempo/toggle_api.py:125 | no multiple of g is nearer to n, and one as near is an odd multiple |
| `TogglApi.RoundToNearest` | toggl_track_to_jira_tempo/toggle_api.py:123-125 | the rounded duration is the nearest multiple of the step |
| `TogglApi.RoundToIdempotent` | toggl_track_to_jira_tempo/toggle_api.py:123-125 | rounding twice is rounding once |
| `TogglApi.RoundDurations` | toggl_track_to_jira_tempo/toggle_api.py:123-125 | the in-place loop replaces each duration by its rounding and changes nothing else |
| `TogglApi.KeptIff` | toggl_track_to_jira_tempo/toggle_api.py:76-96 | the four filters keep exactly the entries passing all four |
| `TogglApi.KeptIsFilter` | toggl_track_to_jira_tempo/toggle_api.py:76-96 | the four filters in a row are one comprehension by the combined condition, so the kept entries are in the API's order with their repetitions |
| `TogglApi.KeptAppend` | toggl_track_to_jira_tempo/toggle_api.py:76-96 | filtering a concatenation concatenates the filtered parts: no entry moves past another |
| `TogglApi.KeptCount` | toggl_track_to_jira_tempo/toggle_api.py:76-96 | an entry passing the filters is kept as often as the API returned it, any other entry not at all |
| `TogglApi.GetTimeEntries` | toggl_track_to_jira_tempo/toggle_api.py:45-127 | the whole method equals its specification, with a missing end date meaning the start date only |
| `TogglApi.ProcessEntries` | toggl_track_to_jira_tempo/toggle_api.py:76-127 | filtering, same-day filter, grouping, rounding and sorting equal their specification |
| `TogglApi.ProcessedSorted` | toggl_track_to_jira_tempo/toggle_api.py:127 | the result is in ascending id order |
| `TogglApi.ProcessedRounded` | toggl_track_to_jira_tempo/toggle_api.py:123-125 | every returned duration is one rounding leaves as it is |
| `TogglApi.ProcessedPasses` | toggl_track_to_jira_tempo/toggle_api.py:76-127 | every returned entry is a fetched entry with another duration, passing every filter and on the day when only a start date was given |
| `TogglApi.ProcessedPermutation` | toggl_track_to_jira_tempo/toggle_api.py:76-127 | without grouping and rounding, the result is a permutation of the filtered entries |
| `TogglApi.ProcessedFails` | toggl_track_to_jira_tempo/toggle_api.py:98-106 | with only a start date it fails exactly when a filtered entry's start does not parse |
| `TogglApi.TimeEntriesEndDate` | toggl_track_to_jira_tempo/toggle_api.py:59-68 | with an end date it fails exactly when that date does not parse or is the last day |
| `Sync.IssueKey` | toggl_track_to_jira_tempo/sync.py:59 | the key is a prefix of the description, all of it when there is no colon |
| `Sync.IssueKeyOf` | toggl_track_to_jira_tempo/sync.py:59 | "KEY:rest" gives KEY when KEY has no colon, untrimmed |
| `Sync.IssueKeyHasNoColon` | toggl_track_to_jira_tempo/sync.py:59 | the key holds no colon |
| `Sync.IssueDescription` | toggl_track_to_jira_tempo/sync.py:60-61 | "" when the description has no "--" |
| `Sync.IssueDescriptionOf` | toggl_track_to_jira_tempo/sync.py:60-61 | "head--text" gives text, stripped, whatever text ends with (so "A--b-" gives "b-"); "head--text--rest" gives it too when text does not end in a dash |
| `Sync.EntryStartDateOf` | toggl_track_to_jira_tempo/sync.py:63-64 | the date of a timestamp Toggl writes is that timestamp's own date |
| `Sync.Answers` | toggl_track_to_jira_tempo/sync.py:104 | each typed line is paired with what int() makes of it |
| `Sync.InputOrDefault` | toggl_track_to_jira_tempo/sync.py:40-42 | the typed value when it is non-empty, the default exactly when nothing was typed |
| `Sync.InputOrDefaultIdempotent` | toggl_track_to_jira_tempo/sync.py:40-42 | typing the result back changes nothing |
| `Sync.IntOrDefaultIsInt` | toggl_track_to_jira_tempo/sync.py:104 | int(input_or_default(..., str(d))) is the typed number, or d itself for an empty answer |
| `Sync.PythonIndex` | toggl_track_to_jira_tempo/sync.py:29 | choices[k-1] is valid exactly for -n <= k-1 < n, counting from the end when negative |
| `Sync.InputChoiceAsWritten` | toggl_track_to_jira_tempo/sync.py:22-32 | as written, a picked choice is one of the choices and consumes at least one answer |
| `Sync.InputChoice` | toggl_track_to_jira_tempo/sync.py:22-32 | as the "[1-n]" prompt intends, a picked choice is one of the choices and consumes at least one answer |
| `Sync.ChoicePicks` | toggl_track_to_jira_tempo/sync.py:27-29 | an answer k in 1..n picks choices[k-1] at once, in both versions |
| `Sync.ChoiceRepeats` | toggl_track_to_jira_tempo/sync.py:30-32 | an answer int() rejects asks again, in both versions |
| `Sync.ChoiceOutOfRangeRepeats` | toggl_track_to_jira_tempo/sync.py:30-32 | the intended version asks again on any number outside 1..n |
| `Sync.LabelsDistinct` | toggl_track_to_jira_tempo/sync.py:89-109 | the five option labels are distinct, so the comparisons identify one branch |
| `Sync.ZeroAnswerExits` | toggl_track_to_jira_tempo/sync.py:29 | as written, answer "0" picks "Exit"; the intended prompt asks again |
| `Sync.SecondsToHumanReadable` | toggl_track_to_jira_tempo/sync.py:37-38 | str(timedelta) exists exactly when the day count is within timedelta's limit |
| `Sync.UnderADay` | toggl_track_to_jira_tempo/sync.py:37-38 | under a day the text is "H:MM:SS" with unpadded hours, and it reads back as the seconds |
| `Sync.ClockRoundTrip` | toggl_track_to_jira_tempo/sync.py:37-38 | the clock part reads back as the seconds within the day |
| `Sync.HumanReadableRoundTrip` | toggl_track_to_jira_tempo/sync.py:37-38 | the text, days included and negative days too, reads back as the seconds |
| `Sync.ManualAnswers` | toggl_track_to_jira_tempo/sync.py:102-107 | the four prompts consume four answers and resubmit, or end the command on a bad int() or on end of input |
| `Sync.RunEntryStep` | toggl_track_to_jira_tempo/sync.py:78-114 | a failed attempt either ends the entry as the branch says or makes the next attempt |
| `Sync.RunEntryAttempts` | toggl_track_to_jira_tempo/sync.py:66-114 | the entry ends Submitted exactly when its last attempt went through, and every earlier attempt failed |
| `Sync.EntryAttempts` | toggl_track_to_jira_tempo/sync.py:66-114 | the same for one entry on its own: the first attempt is the entry's worklog |
| `Sync.Reacts` | toggl_track_to_jira_tempo/sync.py:89-114 | after a failure the chosen option's branch decides what happens |
| `Sync.EntryStops` | toggl_track_to_jira_tempo/sync.py:95-100 | a stopping branch leaves the failed attempt as the only one |
| `Sync.EntryGoesOn` | toggl_track_to_jira_tempo/sync.py:91-114 | a resubmitting branch makes the branch's worklog the second attempt |
| `Sync.RetryResubmits` | toggl_track_to_jira_tempo/sync.py:91-93 | Retry submits the same values again |
| `Sync.OpenIssueResubmits` | toggl_track_to_jira_tempo/sync.py:109-114 | Open JIRA Issue waits for one line, then submits the same values again |
| `Sync.OpenIssueOutOfInput` | toggl_track_to_jira_tempo/sync.py:113 | with no line left to wait for, the command ends at the end of input |
| `Sync.SkipEndsEntry` | toggl_track_to_jira_tempo/sync.py:95-97 | Skip ends the entry after the single failed attempt |
| `Sync.ExitEndsRun` | toggl_track_to_jira_tempo/sync.py:99-100 | Exit ends the command with status 1 |
| `Sync.ManualEntryReplaces` | toggl_track_to_jira_tempo/sync.py:102-107 | Manual Entry submits the typed key, duration, date and description, each empty answer keeping the old value |
| `Sync.ManualEntryKeepsDefaults` | toggl_track_to_jira_tempo/sync.py:102-107 | four empty answers resubmit the same values |
| `Sync.ManualEntryBadDuration` | toggl_track_to_jira_tempo/sync.py:104 | a duration int() rejects ends the whole command uncaught |
| `Sync.Prompt` | toggl_track_to_jira_tempo/sync.py:78-114 | the except branch does what the operator's answers select |
| `Sync.TrySubmit` | toggl_track_to_jira_tempo/sync.py:67-77 | an attempt succeeds exactly when the progress line formats and the Tempo call returns |
| `Sync.SyncEntry` | toggl_track_to_jira_tempo/sync.py:66-114 | the while loop for one entry equals its specification |
| `Sync.SyncQueryKeeps` | toggl_track_to_jira_tempo/sync.py:48-56 | every entry sync handles is a whole number of minutes, without "SKIP", the banked_hours tag or the Hours Bank project, and is a fetched entry with another duration |
| `Sync.EntryWorklogOf` | toggl_track_to_jira_tempo/sync.py:59-75 | the first worklog of an entry carries its key, duration, start date and description |
| `Sync.RunAllPrefix` | toggl_track_to_jira_tempo/sync.py:58-114 | the runs extend those already made, at most one per entry |
| `Sync.RunAllRuns` | toggl_track_to_jira_tempo/sync.py:58-66 | the run of each handled entry starts with that entry's own worklog |
| `Sync.RunAllGoOn` | toggl_track_to_jira_tempo/sync.py:58-114 | every run but the last went on to the next entry |
| `Sync.RunAllStops` | toggl_track_to_jira_tempo/sync.py:58-114 | every entry is handled unless a run ends by Exit, a crash or end of input, or a start does not parse |
| `Sync.SyncEntries` | toggl_track_to_jira_tempo/sync.py:58-114 | the for loop equals its specification |
| `Sync.SyncCommand` | toggl_track_to_jira_tempo/sync.py:44-114 | sync() equals its specification, failing where get_time_entries raises |
| `Sync.PastWorkingDay` | toggl_track_to_jira_tempo/sync.py:118-125 | the result is the latest Monday-to-Friday date before today; it fails only on 0001-01-01 |
| `Sync.StepBack` | toggl_track_to_jira_tempo/sync.py:122-123 | the loop can always step back from a weekend day, keeping its invariant |
| `Sync.LatestWorkdayUnique` | toggl_track_to_jira_tempo/sync.py:118-125 | there is only one such date |
| `Sync.LatestWorkdayNear` | toggl_track_to_jira_tempo/sync.py:118-125 | it is one to three days back |
| `Sync.NoThreeWeekendDays` | toggl_track_to_jira_tempo/sync.py:122 | no three weekend days follow each other |
| `SyncTracker.EntryHashOrderIndependent` | toggl_track_to_jira_tempo/sync_tracker.py:55-68 | the hash depends on the ids' multiset, not their order |
| `SyncTracker.StoredMetadata` | toggl_track_to_jira_tempo/sync_tracker.py:123 | additional_data is stored exactly when it is present and non-empty, unchanged |
| `SyncTracker.RecordThenSynced` | toggl_track_to_jira_tempo/sync_tracker.py:115-139 | after record_sync the entry reads as synced; a new hash adds exactly its row, an existing one changes nothing |
| `SyncTracker.RecordIdempotent` | toggl_track_to_jira_tempo/sync_tracker.py:125-139 | first write wins: recording again with any other worklog id, time or metadata changes nothing |
| `SyncTracker.RecordOrderIndependent` | toggl_track_to_jira_tempo/sync_tracker.py:61-62 | the ids in any order record the same row |
| `SyncTracker.RecordKeepsConsistent` | toggl_track_to_jira_tempo/sync_tracker.py:115-132 | every row stays under the hash of its own fields, with sorted ids |
| `SyncTracker.DeleteEffect` | toggl_track_to_jira_tempo/sync_tracker.py:228-232 | deleting a hash removes exactly that row |
| `SyncTracker.RecordLeTotal` | toggl_track_to_jira_tempo/sync_tracker.py:198 | the ORDER BY order compares any two records |
| `SyncTracker.InsertRecord` | toggl_track_to_jira_tempo/sync_tracker.py:198 | ordered insertion adds exactly the one record |
| `SyncTracker.InsertRecordOrdered` | toggl_track_to_jira_tempo/sync_tracker.py:198 | ordered insertion keeps the list in ORDER BY order |
| `SyncTracker.ListStepIn` | toggl_track_to_jira_tempo/sync_tracker.py:188-198 | a row within the bounds is listed once, in order |
| `SyncTracker.ListStepOut` | toggl_track_to_jira_tempo/sync_tracker.py:188-198 | a row outside the bounds is not listed |
| `SyncTracker.Tracker.constructor` | toggl_track_to_jira_tempo/sync_tracker.py:17-20 | opening a database keeps its rows |
| `SyncTracker.Tracker.InitDatabase` | toggl_track_to_jira_tempo/sync_tracker.py:22-53 | creating the table and indexes again changes nothing |
| `SyncTracker.Tracker.IsEntrySynced` | toggl_track_to_jira_tempo/sync_tracker.py:70-94 | true exactly when a row has the entry's hash |
| `SyncTracker.Tracker.RecordSync` | toggl_track_to_jira_tempo/sync_tracker.py:96-139 | returns the entry's hash and inserts its row unless the hash is present |
| `SyncTracker.Tracker.GetSyncRecord` | toggl_track_to_jira_tempo/sync_tracker.py:141-164 | the row under the hash, exactly when there is one |
| `SyncTracker.Tracker.ListSyncedEntries` | toggl_track_to_jira_tempo/sync_tracker.py:166-216 | exactly the rows within the given inclusive bounds, each once, ordered by start date and then sync time |
| `SyncTracker.Tracker.DeleteSyncRecord` | toggl_track_to_jira_tempo/sync_tracker.py:218-232 | true exactly when the row existed; afterwards it is gone and nothing else changed |
| `SyncTracker.Tracker.ClearAllRecords` | toggl_track_to_jira_tempo/sync_tracker.py:234-246 | returns the number of rows present and leaves the table empty |
| `Summary.SumKindSplit` | toggl_track_to_jira_tempo/summary.py:83-96 | the paid and the unpaid hours of a list add up to all of them |
| `Summary.MonthHoursSplit` | toggl_track_to_jira_tempo/summary.py:78-99 | the month's paid and unpaid totals add up to everything logged |
| `Summary.MonthHoursAdded` | toggl_track_to_jira_tempo/summary.py:51-55 | logging hours adds them to their kind's month total, from their day on, and to nothing else |
| `Summary.WorkdaysMonotone` | toggl_track_to_jira_tempo/summary.py:113-122 | more days never give fewer working days, nor more than the days added |
| `Summary.WorkdaysCount` | toggl_track_to_jira_tempo/summary.py:102-110 | the working days are the Monday-to-Friday day numbers from the 1st on |
| `Summary.SevenDays` | toggl_track_to_jira_tempo/summary.py:109 | any seven days in a row hold five working days |
| `Summary.MonthWorkdays` | toggl_track_to_jira_tempo/summary.py:102-110 | a month has 20 to 23 working days |
| `Summary.TotalMonthHours` | toggl_track_to_jira_tempo/summary.py:71-75 | a month requires 160 to 184 hours |
| `Summary.SoFarWithinMonth` | toggl_track_to_jira_tempo/summary.py:147-148 | the working days and hours so far never exceed the month's |
| `Summary.StartOfWeekMonday` | toggl_track_to_jira_tempo/summary.py:41-49 | without the month limit, the Monday on or before the reference date |
| `Summary.StartOfWeekInMonth` | toggl_track_to_jira_tempo/summary.py:44-47 | within the month, that Monday when it is in the month and otherwise the 1st |
| `Summary.WeekDaysVisited` | toggl_track_to_jira_tempo/summary.py:63-64 | the corrected loop visits the week start and the days after it up to Friday, all working days |
| `Summary.WeekFromMonday` | toggl_track_to_jira_tempo/summary.py:57-69 | from a Monday, both loops sum Monday to Friday |
| `Summary.WeekSumSkipsMonthStart` | toggl_track_to_jira_tempo/summary.py:63-64 | on 2025-01-03 the loop as written misses the 8 hours of 2025-01-01, which the corrected loop counts |
| `Summary.RequiredHoursForWeek` | toggl_track_to_jira_tempo/summary.py:124-144 | 8 times min(weekday+1, 5), and within the month also at most 8 times the day; always 8 to 40 |
| `Summary.LeftJustifiedShape` | toggl_track_to_jira_tempo/summary.py:17-18 | the left text, padding up to 50 (none when already longer), then the rest |
| `Summary.LogsSummary.constructor` | toggl_track_to_jira_tempo/summary.py:37-39 | no hours yet; the reference date is the given one, or today |
| `Summary.LogsSummary.AddDayHours` | toggl_track_to_jira_tempo/summary.py:51-55 | exactly one entry appended to that day's list; other days unchanged |
| `Summary.LogsSummary.PaidHoursOver` | toggl_track_to_jira_tempo/summary.py:63-67 | the loop sums the paid hours over its day offsets |
| `Summary.LogsSummary.TotalWeekPaidHoursAsWritten` | toggl_track_to_jira_tempo/summary.py:57-69 | as written: offsets from the start's weekday to 4, counted from the start itself |
| `Summary.LogsSummary.TotalWeekPaidHours` | toggl_track_to_jira_tempo/summary.py:57-69 | corrected: the paid hours from the week start to that week's Friday |
| `Summary.LogsSummary.MonthHoursSoFar` | toggl_track_to_jira_tempo/summary.py:78-99 | the loop sums one kind of hours over days 1 to the reference day |
| `Summary.LogsSummary.TotalMonthPaidHoursSoFar` | toggl_track_to_jira_tempo/summary.py:77-87 | the paid hours of days 1 to the reference day |
| `Summary.LogsSummary.TotalMonthUnpaidHoursSoFar` | toggl_track_to_jira_tempo/summary.py:89-99 | the unpaid hours of days 1 to the reference day |
| `Summary.LogsSummary.WorkingDaysInMonthSoFar` | toggl_track_to_jira_tempo/summary.py:112-122 | the Monday-to-Friday dates from the 1st to the reference day |
| `Summary.LogsSummary.RequiredHoursForMonth` | toggl_track_to_jira_tempo/summary.py:146-148 | 8 hours per working day so far, never more than the month's total |
| `Summary.LogsSummary.MonthWorkRequiredDifference` | toggl_track_to_jira_tempo/summary.py:150-152 | everything logged this month so far less what was required |
| `RecordsCli.AddToFound` | toggl_track_to_jira_tempo/sync_records_cli.py:92-93 | a present key is updated where it stands |
| `RecordsCli.AddToNew` | toggl_track_to_jira_tempo/sync_records_cli.py:90-93 | a new key is added at the end with one record |
| `RecordsCli.AddToSums` | toggl_track_to_jira_tempo/sync_records_cli.py:92-93 | each update adds one record and its duration to the totals |
| `RecordsCli.GroupedSums` | toggl_track_to_jira_tempo/sync_records_cli.py:82-102 | the group counts sum to the number of records and the durations to the total duration |
| `RecordsCli.GroupedCorrect` | toggl_track_to_jira_tempo/sync_records_cli.py:86-102 | distinct keys, exactly the records' keys, each with the count and summed duration of its records |
| `RecordsCli.GroupBy` | toggl_track_to_jira_tempo/sync_records_cli.py:86-102 | the in-place grouping loop equals its specification |
| `RecordsCli.AddRecord` | toggl_track_to_jira_tempo/sync_records_cli.py:89-93 | one dictionary update equals its specification |
| `RecordsCli.TopIssuesCorrect` | toggl_track_to_jira_tempo/sync_records_cli.py:114-115 | at most ten issues from the dictionary, longest first, and none left out is longer than one listed |
| `RecordsCli.RestNotLonger` | toggl_track_to_jira_tempo/sync_records_cli.py:115 | what a prefix of the sorted list leaves out is no longer than what it keeps |
| `RecordsCli.MinKeyLeast` | toggl_track_to_jira_tempo/sync_records_cli.py:108 | min() is a key not above any other |
| `RecordsCli.MaxKeyGreatest` | toggl_track_to_jira_tempo/sync_records_cli.py:108 | max() is a key not below any other |
| `RecordsCli.ShowStats` | toggl_track_to_jira_tempo/sync_records_cli.py:71-117 | reads every row of the tracker (list_synced_entries() without bounds); nothing exactly when the table is empty; otherwise the number of rows, the total duration, the date range, the numbers of dates and issues and the top issues |
| `SyncTracker.UnboundedListingAll` | toggl_track_to_jira_tempo/sync_tracker.py:166-216 | without bounds the listing holds one record per row, so it is empty exactly when the table is |
| `RecordsCli.ClearAll` | toggl_track_to_jira_tempo/sync_records_cli.py:59-68 | without --confirm nothing is deleted; with it all rows are, and their number is reported |
| `RecordsCli.DurationMinutes` | toggl_track_to_jira_tempo/sync_records_cli.py:35 | the whole minutes in the duration, rounded down |
| `IssueLogs.AddHoursSum` | toggl_track_to_jira_tempo/issue-logs-summary.py:30-31 | each update adds its hours to the sum of the per-user values |
| `IssueLogs.AddHoursUsers` | toggl_track_to_jira_tempo/issue-logs-summary.py:30 | an update adds no user but its own |
| `IssueLogs.UserLogsTotal` | toggl_track_to_jira_tempo/issue-logs-summary.py:23-33 | the total equals the sum of the per-user values |
| `IssueLogs.UserLogsFiltered` | toggl_track_to_jira_tempo/issue-logs-summary.py:27-28 | with a filter every listed user matches it ignoring case |
| `IssueLogs.TimeEntries` | toggl_track_to_jira_tempo/issue-logs-summary.py:15-33 | the loop's total and per-user dictionary equal their specification |
| `IssueLogs.AddUserHours` | toggl_track_to_jira_tempo/issue-logs-summary.py:30 | one dictionary update equals its specification |
| `IssueLogs.QueueSizeAppend` | toggl_track_to_jira_tempo/issue-logs-summary.py:53-54 | the paths left to visit in two queues add up |
| `IssueLogs.StepShrinks` | toggl_track_to_jira_tempo/issue-logs-summary.py:43-54 | each step leaves one path fewer, so the walk ends on an acyclic hierarchy |
| `IssueLogs.WalkLength` | toggl_track_to_jira_tempo/issue-logs-summary.py:43-54 | with no visited set, an issue reachable along k paths is listed k times |
| `IssueLogs.NextLevelOrdered` | toggl_track_to_jira_tempo/issue-logs-summary.py:43-54 | the FIFO queue's levels never fall and span at most one |
| `IssueLogs.WalkLevels` | toggl_track_to_jira_tempo/issue-logs-summary.py:43-54 | levels in the output never fall |
| `IssueLogs.WalkStep` | toggl_track_to_jira_tempo/issue-logs-summary.py:44-54 | the head is listed with its title, then the epic's children and the subtasks are enqueued one level down |
| `IssueLogs.CollectIssues` | toggl_track_to_jira_tempo/issue-logs-summary.py:36-56 | the queue loop equals the walk from the root |
| `IssueLogs.EnqueueAll` | toggl_track_to_jira_tempo/issue-logs-summary.py:53-54 | every child is appended at the given level, in order |
| `IssueLogs.CollectIssuesShape` | toggl_track_to_jira_tempo/issue-logs-summary.py:40-56 | the root comes first at level 0, one item per path, levels never fall |
| `IssueLogs.MaxLength` | toggl_track_to_jira_tempo/issue-logs-summary.py:60-61 | the longest length, attained by some text |
| `IssueLogs.LinesAligned` | toggl_track_to_jira_tempo/issue-logs-summary.py:66-88 | every printed issue has a non-zero total equal to its per-user sum, padded to the widths |
| `IssueLogs.WidthsBound` | toggl_track_to_jira_tempo/issue-logs-summary.py:60-75 | no key or title is longer than the longest, so the padding is never negative |
| `IssueLogs.LinesStep` | toggl_track_to_jira_tempo/issue-logs-summary.py:66-75 | one more issue adds its line unless its total is zero |
| `IssueLogs.ProcessIssues` | toggl_track_to_jira_tempo/issue-logs-summary.py:58-90 | fails exactly on an empty issue list; otherwise the lines of the non-zero issues and the sum of their totals |
| `IssueLogs.ReportAligned` | toggl_track_to_jira_tempo/issue-logs-summary.py:60-75 | every key and title is padded to the longest one |
| `Progress.SuccessRate` | toggl_track_to_jira_tempo/animated_progress.py:161 | the rate lies between 0 and 100 |
| `Progress.ColourThresholds` | toggl_track_to_jira_tempo/animated_progress.py:160-162 | success iff 100·succeeded >= 90·processed, warning iff between 70% and 90%, error iff below 70%, all in integers |
| `Progress.ColourMonotone` | toggl_track_to_jira_tempo/animated_progress.py:162 | more successes never give a worse colour |
| `Progress.SummaryOf` | toggl_track_to_jira_tempo/animated_progress.py:136-172 | the failed line exactly when failures exist, the processed total, a rate in 0..100 exactly when something was processed, the success message exactly without failures |
| `Progress.SummaryExtremes` | toggl_track_to_jira_tempo/animated_progress.py:160-170 | no failures gives 100% in the success colour; no successes gives 0% in the error colour |
| `Progress.SummaryColour` | toggl_track_to_jira_tempo/animated_progress.py:155-162 | the summary's colour in integer terms |
| `Progress.SkipLine` | toggl_track_to_jira_tempo/animated_progress.py:112 | the skip line ends with the reason |
| `Progress.SyncProgressDisplay.constructor` | toggl_track_to_jira_tempo/animated_progress.py:66-71 | all counters start at 0 |
| `Progress.SyncProgressDisplay.StartEntryProcessing` | toggl_track_to_jira_tempo/animated_progress.py:95-98 | the current entry goes up by one, the other counters stay, and the entry number shows it |
| `Progress.SyncProgressDisplay.ShowEntrySkipped` | toggl_track_to_jira_tempo/animated_progress.py:108-112 | only the skipped counter goes up by one |
| `Progress.SyncProgressDisplay.ShowEntrySuccess` | toggl_track_to_jira_tempo/animated_progress.py:114-118 | only the synced counter goes up by one |
| `Progress.SyncProgressDisplay.ShowEntryFailed` | toggl_track_to_jira_tempo/animated_progress.py:120-124 | only the failed counter goes up by one |
| `Progress.SyncProgressDisplay.ShowEntryUserSkipped` | toggl_track_to_jira_tempo/animated_progress.py:126-129 | no counter changes; the line is the skip line |
| `Progress.SyncProgressDisplay.PrintSummary` | toggl_track_to_jira_tempo/animated_progress.py:136-172 | the summary of the current counters |
| `Progress.CountsTotal` | toggl_track_to_jira_tempo/animated_progress.py:95-129 | every display call is counted under exactly one kind |
| `Progress.Replay` | toggl_track_to_jira_tempo/animated_progress.py:66-129 | after any sequence of calls each counter is the number of its calls, and the counters with the user-skip calls account for every call |
| `Progress.CreateApiLoader` | toggl_track_to_jira_tempo/animated_progress.py:175-185 | the operation is the message and the spinner is one of the four |
| `Progress.LoaderSpinner` | toggl_track_to_jira_tempo/animated_progress.py:177-184 | the syncing and validating spinners exactly for those names in any case, the default otherwise |
| `Progress.LoaderIgnoresCase` | toggl_track_to_jira_tempo/animated_progress.py:184 | an operation and its lower-cased form get the same spinner |
| `Text.Strip` | toggl_track_to_jira_tempo/sync.py:61 | the stripped text neither starts nor ends with whitespace |
| `Text.StripIsSlice` | toggl_track_to_jira_tempo/sync.py:61 | strip keeps one slice and drops only whitespace around it |
| `Text.Find` | toggl_track_to_jira_tempo/toggle_api.py:78 | the first occurrence at or after a position, or none |
| `Text.ContainsIff` | toggl_track_to_jira_tempo/toggle_api.py:78 | `in` holds exactly when the text occurs somewhere |
| `Text.SplitHead` | toggl_track_to_jira_tempo/sync.py:59 | the text before the first separator, or all of it |
| `Text.SplitSecond` | toggl_track_to_jira_tempo/sync.py:60 | the piece after the first separator (no earlier occurrence), up to the next one; present exactly when the separator occurs |
| `Text.SplitHeadJoin` | toggl_track_to_jira_tempo/sync.py:59 | splitting head + sep + tail gives back the head |
| `Text.Lower` | toggl_track_to_jira_tempo/issue-logs-summary.py:27 | lower() maps each letter and keeps the length |
| `Text.LexLeTotal` | toggl_track_to_jira_tempo/sync_records_cli.py:108 | any two texts are ordered |
| `Text.LexLeTrans` | toggl_track_to_jira_tempo/sync_records_cli.py:108 | the order is transitive |
| `Text.LexLeAntisym` | toggl_track_to_jira_tempo/sync_records_cli.py:108 | the order is antisymmetric |
| `Lists.Filter` | toggl_track_to_jira_tempo/toggle_api.py:77-79 | a comprehension keeps exactly the elements meeting its condition, each as often as the list holds it |
| `Lists.FilterAppend` | toggl_track_to_jira_tempo/toggle_api.py:77-79 | the comprehension goes front to back: filtering a concatenation concatenates the filtered parts |
| `Lists.FilterFilter` | toggl_track_to_jira_tempo/toggle_api.py:76-96 | two comprehensions in a row are one comprehension by both conditions |
| `Sorting.SortByCorrect` | toggl_track_to_jira_tempo/toggle_api.py:127 | sorted() is in ascending key order and a permutation |
| `Sorting.SortByStable` | toggl_track_to_jira_tempo/sync_records_cli.py:114 | sorted() keeps the order of equal keys |
| `Sorting.SortIgnoresOrder` | toggl_track_to_jira_tempo/sync_tracker.py:62 | sorting integers gives one list for any order of the same ids |
| `Calendar.DaysInMonth` | toggl_track_to_jira_tempo/summary.py:107 | 28 to 31 days, 29 exactly for February of a leap year |
| `Calendar.DayNumberOrder` | toggl_track_to_jira_tempo/summary.py:47 | max() of dates compares by day number |
| `Calendar.NextDayNumber` | toggl_track_to_jira_tempo/toggle_api.py:67 | + 1 day is the next day number, failing only on 9999-12-31 |
| `Calendar.PrevDayNumber` | toggl_track_to_jira_tempo/sync.py:120 | - 1 day is the previous day number, failing only on 0001-01-01 |
| `Calendar.AddDaysNumber` | toggl_track_to_jira_tempo/summary.py:64 | + n days moves n day numbers on, failing past 9999-12-31 |
| `Calendar.SubDaysNumber` | toggl_track_to_jira_tempo/summary.py:43 | - n days moves n day numbers back, failing before 0001-01-01 |
| `Calendar.NextDayWeekday` | toggl_track_to_jira_tempo/summary.py:109 | the weekday advances by one each day |
| `Calendar.PrevDayWeekday` | toggl_track_to_jira_tempo/sync.py:122-123 | the weekday goes back by one each day |
| `Calendar.MondayOnOrBefore` | toggl_track_to_jira_tempo/summary.py:43 | reference - weekday() days never overflows and is a Monday |
| `DateText.FormatDate` | toggl_track_to_jira_tempo/sync.py:73 | "%Y-%m-%d" is ten characters with dashes at 4 and 7 |
| `DateText.FormatTimestamp` | toggl_track_to_jira_tempo/toggle_api.py:68 | the timestamp is the date, "T", then the clock |
| `DateText.ParseFormatDate` | toggl_track_to_jira_tempo/toggle_api.py:66 | strptime reads back what strftime wrote |
| `DateText.ParseFormatTimestamp` | toggl_track_to_jira_tempo/toggle_api.py:102-104 | the timestamp format reads back the date and time it was written from |
| `Decimal.NatToString` | toggl_track_to_jira_tempo/animated_progress.py:98 | str(n) is digits without a leading zero |
| `Decimal.ZeroPadValue` | toggl_track_to_jira_tempo/toggle_api.py:68 | zero padding keeps the value |
| `DecimalFacts.ParseIntOfIntToString` | toggl_track_to_jira_tempo/sync.py:104 | int(str(i)) == i |

## Left out

- HTTP: the Toggl, Jira and Tempo clients, `_make_get_request` and the Tempo pagination are not part of this model. Their answers are inputs: `EntriesSource`, the project list, `Acceptance`, the `Jira` oracles and the worklogs function.
- Base64 of the Authorization header (RFC 4648 section 4) is left out; `TogglApi.Credentials` stops at the "user:password" text.
- SHA-256 (FIPS 180-4) is the uninterpreted `digest`; no collision freedom is claimed, and the unescaped "|" separator is not analysed.
- SQLite and JSON: the table is a map keyed by the UNIQUE entry_hash. The autoincrement id column and the JSON text round trip are not modelled; the JSON columns hold the values they encode.
- `datetime.now()`, `today()` and the sync timestamp are parameters.
- Floating point: hours, the success rate and `round(d / g)` are exact reals and integers. For very large durations, and at exactly 90% or 70% where a float quotient could round across the threshold, the source's float results can differ.
- Float and percentage formatting (`%.2f`, `%.1f`), `float_to_hours_minutes` and `str.center`/`get_centered_string` are left out. They produce output text only.
- Terminal output: the methods return the text they would print, without ANSI colours. `print_header`, `show_api_activity` and the Logger calls are output only. So are `list_records` (apart from its minutes), `delete_record` (a call to `DeleteSyncRecord` plus a message) and `confirm`.
- `AnimatedLoader` is a background thread writing to the terminal. `CreateApiLoader` returns the message and spinner it is built with.
- `os.system("open ...")` in the Open JIRA Issue branch is left out; the branch is modelled as waiting for one line and resubmitting.
- `get_total_hours_summary`, `get_hours` and `get_unpaid_hours` need Tempo data and the clock. `main` of each script, the argument parsers, config.py, cli.py, cli_defaults.py and the demo and test scripts are not part of this model.
- Years below 1000: the model always writes `%Y` as four digits, zero-padded. glibc's `strftime` writes such a year unpadded (year 1 as "1"); only newer CPython versions pad `%Y` themselves. This affects `TogglApi.UpperBoundNextDay` and `Sync.PastWorkingDay` only for dates before the year 1000.
- `int()` accepts ASCII digits with surrounding whitespace and a sign; the underscores and non-ASCII digits Python also accepts are not modelled. Likewise `strptime`'s `\d` patterns are Unicode regular expressions that match any Unicode decimal digit (a full-width "２０２５-01-03" parses); the model's date and timestamp grammar accepts only '0' to '9', so such text is a parse failure in the model. `lower()` is modelled on ASCII letters, and every spinner key is ASCII.
- `IssueLogs.CollectIssues`: requires an acyclic hierarchy (a height that falls from each issue to its children). On a cyclic one the source never ends.
- `Sync.InputChoice`: the rest of the model uses the prompt's intended 1..n behaviour; the source as written is `Sync.InputChoiceAsWritten` (see Findings).
- `Summary.LogsSummary.TotalWeekPaidHours`: states the intended week sum; the loop as written is `Summary.LogsSummary.TotalWeekPaidHoursAsWritten` (see Findings).
- Grouping in `get_time_entries` adds to the first entry's `duration` in the dict the API returned. The model builds new values, so that aliasing is not captured; only the returned list is.

## Findings

| source | as written | input that shows it | evidently intended | confidence | as-written member | corrected member |
|---|---|---|---|---|---|---|
| toggl_track_to_jira_tempo/sync.py:29 | `choices[int(choice)-1]` accepts 0 and negative answers through Python's negative indexing | answering "0" at the failure prompt picks "Exit" and ends the command with status 1 | only 1..n picks a choice (the prompt says "[1-n]"); other numbers ask again | medium; not executed | `Sync.ZeroAnswerExits` | `Sync.InputChoice` |
| toggl_track_to_jira_tempo/summary.py:63-64 | the offsets run from `start_date.weekday()` to 4 but are added to the start date itself | reference 2025-01-03 (Friday) within the month: the start is Wednesday 2025-01-01, and the loop sums 2025-01-03 to 2025-01-05, missing 8 paid hours on 2025-01-01 | the week start up to that week's Friday | high; not executed | `Summary.WeekSumSkipsMonthStart` | `Summary.LogsSummary.TotalWeekPaidHours` |
