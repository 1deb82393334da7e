# pocut core in Dafny

pocut is a terminal pomodoro timer with a to-do list whose tasks can recur
daily, weekly, monthly or yearly. This project models its core and proves
properties of the model:

- **Task table and recurrence engine** (`pocut/utils/taskmanager.py`), in
  module `TaskManager`. It covers the `Task` record and the row it is stored
  as: `days_of_week` is written as a comma-joined text and `due_date` as a
  `YYYY-MM-DD` text. It covers the next-due-date rules: daily +1 day, monthly
  +30, yearly +365, and weekly as the first listed weekday in a 7-day scan.
  It also covers the sweep `process_repeated_tasks`, which appends one
  follow-up row per pending recurring row. The SQLite table is the class
  `TaskManager.TaskManager`, which holds a sequence of rows and the
  AUTOINCREMENT counter.
- **Dates** (module `Dates`). Dates are day numbers, counted like Python's
  `date.toordinal()` (0001-01-01 is day 1). The module has the proleptic
  Gregorian calendar, the `%A` weekday names, `strftime("%Y-%m-%d")` and
  `strptime(text, "%Y-%m-%d")`. A date past 9999-12-31 is an overflow, as in
  Python.
- **Python text primitives** (module `PyText`): `str()` and `int()` on
  integers, `str.strip()`, `",".join`, `str.split(",")` and zero-padded
  formatting.
- **Application state** (`pocut/state.py`, module `State`). The class
  `AppState` holds the Work/Break flag and the configuration map with its
  duration and finish-sound accessors. It also holds the configuration file
  as a value.
- **Countdown timer** (`pocut/widgets/pomodoro_clock.py`, module
  `PomodoroClock`). `TimeDisplay` is a state machine over `duration`,
  `remaining_time`, `timer_active`, `paused` and whether its one-second
  interval runs. `PomodoroClock` drives it from the buttons and from the
  time-up callback. Each firing of the interval is an explicit call.
- **Task form** (`pocut/widgets/todo_screen.py`, module `TodoScreen`).
  `create_task` is an ordered validator followed by an insert. A non-empty
  due date reaches `add_task` as text, where `.strftime` raises. So every
  dated task ends in the error message and the table is left unchanged.
  This is modelled as it happens.
- **Settings tab** (`pocut/widgets/settings_tab.py`, module `SettingsTab`).
  It shows durations as seconds `// 60`. It saves `int(minutes) * 60` for
  both inputs, or for neither.

`datetime.now()` is the parameter `now`, a day number. `Option`/`Result` in
module `Outcomes` stand for `None` and for raised exceptions.

Behaviours of the code worth knowing:

- Sweeping twice over one daily task adds three rows in total. The second
  sweep also fetches the first follow-up, which is itself pending and
  recurring (`TaskManager.DailySweepTwice`).
- `start(d)` accepts any integer, zero and negative included
  (`PomodoroClock.Started`).
- A weekly task created from the form has an empty day list, and nothing
  rejects it. The weekly rule then finds no date for it
  (`TodoScreen.WeeklyFormTaskNoFollowUp`).

## Model

| member | source | states |
|---|---|---|
| TaskManager.RowToTaskFails | pocut/utils/taskmanager.py:202 | converting a row fails (`ValueError`) exactly when its due-date text is non-empty and not a `YYYY-MM-DD` calendar date |
| TaskManager.RowToTask | pocut/utils/taskmanager.py:183-210 | `_row_to_task`: a row becomes a task, or `None` where `strptime` raises on its due text; a converted task's due date is always a valid day or none. Its failure case is `RowToTaskFails`, its inverse `EncodeRow` by `RowRoundTrip` |
| TaskManager.EncodeRow | pocut/utils/taskmanager.py:67-101 | the row `add_task` writes for a task under an id: days joined with "," or NULL, the due day as `YYYY-MM-DD` text. It reads back through `RowToTask` as the same task (`RowRoundTrip`) |
| TaskManager.DaysRoundTrip | pocut/utils/taskmanager.py:75 | a list of non-empty, comma-free names joined with "," reads back unchanged through `split(",")`; the empty list is stored as NULL and reads back as `[]` |
| TaskManager.DaysReencode | pocut/utils/taskmanager.py:207 | a day-list column read back and written again is the same column, except that an empty text becomes NULL; a second round changes nothing |
| TaskManager.DueRoundTrip | pocut/utils/taskmanager.py:91 | a due date written as `YYYY-MM-DD` reads back as the same day, and no date stays no date |
| TaskManager.RowRoundTrip | pocut/utils/taskmanager.py:183-210 | a task stored by `add_task` and converted back is the same task carrying its row id |
| TaskManager.FirstFlagDecides | pocut/utils/taskmanager.py:148-156 | the first set flag decides: a row with several flags gets the same next due date as the same row with only its first flag kept |
| TaskManager.NextDueDate | pocut/utils/taskmanager.py:137-156 | `_calculate_next_due_date` as a value, `Due(day)` or `NoFollowUp`. The flags are tried in the order daily, weekly, monthly, yearly; daily adds 1 day, monthly 30 and yearly 365 to the due date or, without one, to today; weekly is `NextWeeklyDate`; no flag gives `None`. `FirstFlagDecides`, `NextDueDateInRange`, `NextDueDateExamples` and `WeeklyFirstMatch` state its properties |
| TaskManager.NextWeeklyDate | pocut/utils/taskmanager.py:158-181 | `_get_next_weekly_date`: the anchor is the due date or today, and an empty list gives no date. `WeeklyFirstMatch` characterises its result |
| TaskManager.WeeklyScan | pocut/utils/taskmanager.py:176-181 | the seven-day scan from offset i. `WeeklyScanNone` states when it finds nothing |
| TaskManager.NextDueDateInRange | pocut/utils/taskmanager.py:137-156 | every next due date is a valid day no earlier than the day it counts from |
| TaskManager.NextDueDateExamples | pocut/utils/taskmanager.py:148-179 | 2024-01-31 daily gives 2024-02-01; 2024-01-01 monthly gives 2024-01-31 (not 2024-02-01); Monday/Wednesday from Friday 2024-05-10 gives Monday 2024-05-13; no flag gives no date |
| TaskManager.WeeklyFirstMatch | pocut/utils/taskmanager.py:169-181 | for a non-empty list, the weekly date is r exactly when r is the first day from the anchor (the later of the due date and today) within 7 days whose weekday name is listed, the anchor itself included; there is none exactly when no day of that week matches |
| TaskManager.WeeklyScanNone | pocut/utils/taskmanager.py:176-181 | the scan from offset i finds nothing exactly when no remaining day of the week is listed |
| TaskManager.WeeklyFindsListedName | pocut/utils/taskmanager.py:176-179 | a list containing any real weekday name always yields a date |
| TaskManager.Pending | pocut/utils/taskmanager.py:110-116 | the fetch returns only uncompleted rows with a recurrence flag, in table order, no more rows than the table has |
| TaskManager.PendingMembers | pocut/utils/taskmanager.py:112-114 | a row is fetched exactly when it is in the table, not completed, and has a recurrence flag |
| TaskManager.FollowUpRowCopies | pocut/utils/taskmanager.py:123-134 | a follow-up copies title, text, priority, category, the four flags and the day list, takes the new date, resets completed/attempts/time spent, meets the priority CHECK and is itself pending and recurring |
| TaskManager.FollowUpRow | pocut/utils/taskmanager.py:123-135 | the row a sweep inserts for a fetched row on its next date. `FollowUpRowCopies` and `FollowUpRowEncodes` state what it keeps and that it is what `add_task` writes |
| TaskManager.RowStep | pocut/utils/taskmanager.py:119-135 | one pass of the loop: an unreadable row raises, a row with no next date is skipped, otherwise its follow-up is inserted on that date |
| TaskManager.Sweep | pocut/utils/taskmanager.py:118-135 | the loop over the fetched rows from a first id, stopping at the first error. `SweepCounts`, `SweepIds`, `SweepFollowUps` and `SweepStopsOnError` state its result, and `ProcessFetched` runs it |
| TaskManager.FollowUpRowEncodes | pocut/utils/taskmanager.py:123-135 | the follow-up row is what `add_task` writes for the follow-up `Task`, and it reads back as that task |
| TaskManager.SweepCounts | pocut/utils/taskmanager.py:118-135 | a sweep ends without error exactly when no row raises, and then it has inserted exactly one row per row with a next due date |
| TaskManager.SweepIds | pocut/utils/taskmanager.py:118-135 | a sweep inserts at most one row per fetched row, under consecutive ids from the counter |
| TaskManager.SweepFollowUps | pocut/utils/taskmanager.py:118-135 | every inserted row is a follow-up of a fetched row, meets the CHECK, and is pending and recurring |
| TaskManager.SweepStopsOnError | pocut/utils/taskmanager.py:119-120 | once a row raises, the rest of the sweep does nothing and earlier inserts stay |
| TaskManager.SweepAgainRevisits | pocut/utils/taskmanager.py:110-135 | after a sweep the next fetch returns the old pending rows followed by every follow-up just inserted |
| TaskManager.DailySweepTwice | pocut/utils/taskmanager.py:110-135 | with one daily row due on d, the first sweep adds one follow-up due on d+1, and a second sweep fetches both rows and adds two more |
| TaskManager.TaskManager.constructor | pocut/utils/taskmanager.py:30-65 | a new table is empty with the id counter at 1 |
| TaskManager.TaskManager.AddTask | pocut/utils/taskmanager.py:67-101 | a non-empty text due date raises and writes nothing; a priority outside 1..5 fails the CHECK and writes nothing; otherwise one row is appended under the next id, which the returned task carries, and the counter advances |
| TaskManager.TaskManager.GetNextWeeklyDate | pocut/utils/taskmanager.py:158-181 | the 7-day loop returns the weekly rule's date |
| TaskManager.TaskManager.CalculateNextDueDate | pocut/utils/taskmanager.py:137-156 | returns the next-due-date rule's result |
| TaskManager.TaskManager.InsertFollowUp | pocut/utils/taskmanager.py:123-135 | appends the follow-up row under the next id |
| TaskManager.TaskManager.ProcessRow | pocut/utils/taskmanager.py:118-135 | one loop pass appends the row's follow-up when it has a next date and nothing otherwise |
| TaskManager.TaskManager.ProcessRepeatedTasks | pocut/utils/taskmanager.py:103-135 | the rows fetched before the loop are processed in order; existing rows are unchanged and the table grows by exactly the sweep's follow-ups; an error ends the sweep and keeps earlier inserts |
| TaskManager.TaskManager.ProcessFetched | pocut/utils/taskmanager.py:118-135 | the loop over the fetched rows appends exactly the sweep's follow-ups, in order and under consecutive ids, and returns the error that ended it, if any; the table keeps its invariant |
| Dates.FromOrdinalOrdinal | pocut/utils/taskmanager.py:149 | every valid date has a day number from which it is recovered, so `timedelta(days=k)` is `+ k` |
| Dates.OrdinalFromOrdinal | pocut/utils/taskmanager.py:149 | the date of a day number has that day number again |
| Dates.OrdinalInjective | pocut/utils/taskmanager.py:149 | distinct valid dates have distinct day numbers |
| Dates.WeekCoversEveryDay | pocut/utils/taskmanager.py:176-179 | every weekday occurs within the seven days starting at any day |
| Dates.WeekdayExample | pocut/utils/taskmanager.py:178 | `%A` gives Friday for 2024-05-10, Monday for 2024-05-13, Monday for 0001-01-01 |
| Dates.ParseFormatIso | pocut/utils/taskmanager.py:91 | `strptime` of a date's `strftime("%Y-%m-%d")` text gives back the same day |
| Dates.FormatIso | pocut/utils/taskmanager.py:91 | `strftime("%Y-%m-%d")` of a day: ten characters with dashes at positions 4 and 7. `ParseFormatIso` reads it back |
| Dates.ParseIso | pocut/utils/taskmanager.py:202 | `strptime(text, "%Y-%m-%d")`: a day number, always a valid one, or `None` where it raises. Its accepted and refused forms are the `ParseIso*` lemmas |
| Dates.ParseLeapDay | pocut/widgets/todo_screen.py:98 | `YYYY-02-29` parses exactly in Gregorian leap years |
| Dates.ParseIsoRejects | pocut/widgets/todo_screen.py:96-101 | day 32, year 0 and a two-digit year are rejected |
| Dates.ParseIsoShortFields | pocut/widgets/todo_screen.py:98 | an unpadded month and day (`2024-5-9`) are accepted |
| Dates.ParseIsoSpacedDay | pocut/widgets/todo_screen.py:98 | a space before a one-digit day (`2024-05- 9`) is accepted, as `strptime` does |
| PyText.ParseIntShowInt | pocut/widgets/settings_tab.py:31-42 | `int(str(n)) == n` for every integer |
| PyText.ShowInt | pocut/widgets/settings_tab.py:31-32 | `str(n)` in base 10, with a minus sign for negatives. `ParseIntShowInt` reads it back |
| PyText.ParseInt | pocut/widgets/settings_tab.py:41-42 | `int(text)`: the blanks `int()` skips around the number (the `str.isspace()` set without U+001C-U+001F), one optional sign, and digits grouped by single underscores; `None` where it raises `ValueError`. `ParseIntShowInt` is its round trip with `ShowInt` |
| PyText.StripEmptyIffBlank | pocut/widgets/todo_screen.py:73-86 | a stripped text is empty exactly when every character is whitespace as `str.isspace()` has it, the Unicode spaces included |
| PyText.Strip | pocut/widgets/todo_screen.py:73-76 | `str.strip()`: drops the longest prefix and suffix of `str.isspace()` characters, by `StripLeft` and `StripRight`, which state that what they drop is whitespace and what they keep does not start or end with it |
| PyText.StripIdempotent | pocut/widgets/todo_screen.py:73-76 | stripping a stripped text changes nothing |
| PyText.ParseIntAfterStrip | pocut/widgets/todo_screen.py:75-89 | where `int(text)` succeeds, `int(text.strip())` gives the same number |
| PyText.IntKeepsSeparators | pocut/widgets/todo_screen.py:75-89 | the converse fails: `"5\x1c".strip()` is `"5"`, which `int()` reads as 5, while `int("5\x1c")` raises |
| PyText.SplitJoin | pocut/utils/taskmanager.py:207 | splitting a join gives back the parts when none contains the separator |
| PyText.JoinSplit | pocut/utils/taskmanager.py:75 | joining a split gives back the text |
| PyText.Join | pocut/utils/taskmanager.py:75 | `",".join(parts)`. `JoinSplit` and `SplitJoin` make it the inverse of `Split` |
| PyText.Split | pocut/utils/taskmanager.py:207 | `text.split(",")`, always at least one piece. `JoinSplit` and `SplitJoin` make it the inverse of `Join` |
| PyText.ZeroPad | pocut/widgets/pomodoro_clock.py:127 | zero-padding to a width gives digits whose value is the number, as long as the width or the number's own digits |
| State.StoreLookup | pocut/state.py:58-82 | after `config[t][k] = v` that entry reads `v` and every other entry reads as before |
| State.DefaultValues | pocut/state.py:33-35 | the default configuration has work 1500 s and break 300 s, and its finish sound is the default |
| State.FinishSoundOf | pocut/state.py:98 | the finish sound is the stored one, or `sounds/default_sound.wav` when the audio table or key is absent |
| State.FinishSoundStore | pocut/state.py:106-108 | storing a finish sound makes it the finish sound and leaves every duration unchanged |
| State.PhaseName | pocut/state.py:90 | the name is "Work" exactly for the work phase and "Break" otherwise |
| State.AppState.constructor | pocut/state.py:15-37 | an existing file is loaded; a missing one is replaced by the defaults, which are saved; the phase starts at Work |
| State.AppState.SetWorkDuration | pocut/state.py:58-65 | without a `durations` table it raises and changes nothing; otherwise the work duration reads back as set, the break duration and sound are unchanged, and the file is saved |
| State.AppState.SetBreakDuration | pocut/state.py:75-82 | the same for the break duration |
| State.AppState.TogglePhase | pocut/state.py:84-90 | flips the phase once and returns the new phase's name, so two toggles restore it; the configuration is untouched |
| State.AppState.SetFinishSound | pocut/state.py:100-109 | creates the audio table if missing, sets the sound, keeps the durations, saves |
| PomodoroClock.Started | pocut/widgets/pomodoro_clock.py:91-102 | `start(d)` sets duration and remaining time to d; `start()` keeps both; either way the timer is active, not paused, and ticking |
| PomodoroClock.Stopped | pocut/widgets/pomodoro_clock.py:104-110 | `stop()` keeps the time and leaves the timer inactive, paused and not ticking |
| PomodoroClock.Rewound | pocut/widgets/pomodoro_clock.py:112-119 | `reset()` leaves the timer inactive, not paused, not ticking, with the remaining time back at the duration |
| PomodoroClock.Ticked | pocut/widgets/pomodoro_clock.py:78-89 | `update_time`: the next timer state, and whether time-up fired. `TickCountsDown`, `TimeUpStops`, `CountsDown` and `CountdownFromStart` state its effect |
| PomodoroClock.PhaseLoad | pocut/widgets/pomodoro_clock.py:188-197 | `update_timer_for_current_phase` on a timer and the phase's configured value. `Loaded` and `PhaseLoadIdle` state the result |
| PomodoroClock.Loaded | pocut/widgets/pomodoro_clock.py:195-197 | loading a phase's duration d gives duration = remaining = d and a timer that does not run, whatever it was before |
| PomodoroClock.TickCountsDown | pocut/widgets/pomodoro_clock.py:82-84 | a tick with time left takes off exactly one second, changes nothing else and does not fire |
| PomodoroClock.TimeUpStops | pocut/widgets/pomodoro_clock.py:85-89 | a tick with no time left stops the timer and fires the callback |
| PomodoroClock.CountsDown | pocut/widgets/pomodoro_clock.py:78-84 | k ticks of a running timer with at least k seconds left take off k seconds and fire nothing |
| PomodoroClock.IdleRun | pocut/widgets/pomodoro_clock.py:104-110 | while the interval is paused, ticks change nothing and fire nothing |
| PomodoroClock.CountdownFromStart | pocut/widgets/pomodoro_clock.py:78-110 | after `start(d)` the callback fires exactly once, on tick d+1 (tick 1 when d <= 0), and the stopped timer then ignores further ticks |
| PomodoroClock.StopResume | pocut/widgets/pomodoro_clock.py:96-110 | stopping and then `start()` resumes with duration and remaining time unchanged |
| PomodoroClock.PhaseLoadIdle | pocut/widgets/pomodoro_clock.py:188-197 | reloading a configured phase leaves the timer not running and not paused, with an integer duration as both duration and remaining time |
| PomodoroClock.ClockTextReadsBack | pocut/widgets/pomodoro_clock.py:121-127 | the `mm:ss` text of a time splits at ":" into minutes and two digits of seconds whose value 60*mm+ss is the time again; minutes take two digits below 100 minutes |
| PomodoroClock.ClockText | pocut/widgets/pomodoro_clock.py:121-127 | `watch_remaining_time`'s `f"{m:02}:{s:02}"` of `divmod(remaining, 60)`. `ClockTextReadsBack` reads it back |
| PomodoroClock.ClockTextExamples | pocut/widgets/pomodoro_clock.py:126-127 | 1500 s shows "25:00", 300 s "05:00", 59 s "00:59", 6000 s "100:00" and -1 s "-1:59" |
| PomodoroClock.TimeDisplay.constructor | pocut/widgets/pomodoro_clock.py:41-76 | a mounted display has zero time, is inactive, not paused, and its interval is paused |
| PomodoroClock.TimeDisplay.Start | pocut/widgets/pomodoro_clock.py:91-102 | the new state is `start`'s |
| PomodoroClock.TimeDisplay.Stop | pocut/widgets/pomodoro_clock.py:104-110 | the new state is `stop`'s |
| PomodoroClock.TimeDisplay.Reset | pocut/widgets/pomodoro_clock.py:112-119 | the new state is `reset`'s |
| PomodoroClock.TimeDisplay.UpdateTime | pocut/widgets/pomodoro_clock.py:78-89 | the new state and the time-up signal are the tick's |
| PomodoroClock.PomodoroClock.constructor | pocut/widgets/pomodoro_clock.py:144-152 | the clock shares the given state and owns a fresh mounted display |
| PomodoroClock.PomodoroClock.UpdateTimerForCurrentPhase | pocut/widgets/pomodoro_clock.py:188-197 | loads the current phase's duration into a reset, idle timer; a missing key changes nothing and reports failure |
| PomodoroClock.PomodoroClock.Mount | pocut/widgets/pomodoro_clock.py:154-165 | mounting loads the current phase without starting |
| PomodoroClock.PomodoroClock.OnTimeUp | pocut/widgets/pomodoro_clock.py:167-186 | hands over the finish sound, flips the phase once and loads the new phase's duration without starting, returning the new phase's name |
| PomodoroClock.PomodoroClock.Tick | pocut/widgets/pomodoro_clock.py:78-89 | a firing does nothing while the interval is paused; otherwise it ticks, and a time-up flips the phase and reloads the timer |
| PomodoroClock.PomodoroClock.OnButtonPressed | pocut/widgets/pomodoro_clock.py:199-232 | start/stop stops an active timer and otherwise resumes it; reset resets and reloads the current phase; toggle flips the phase once and loads it without starting; other buttons change nothing |
| TodoScreen.CheckOrder | pocut/widgets/todo_screen.py:80-101 | title, then description, then priority in 1..5, then the date are checked, and the first failure decides |
| TodoScreen.Check | pocut/widgets/todo_screen.py:80-119 | the checks of `create_task` on stripped inputs, and the task they build. `CheckOrder` states the order and `CheckedTask` the task |
| TodoScreen.ValidateOrder | pocut/widgets/todo_screen.py:73-101 | the same order on the raw inputs, which are stripped first, with `int()` applied to the stripped priority |
| TodoScreen.Validate | pocut/widgets/todo_screen.py:68-119 | `create_task` up to the `Task` it builds: strip, check, build. `ValidateOrder` and `BlankRejected` state its outcome |
| TodoScreen.UnicodeBlankTitle | pocut/widgets/todo_screen.py:73-82 | a title of U+00A0 and U+3000 strips to nothing and is rejected with "Task title is required." |
| TodoScreen.BlankRejected | pocut/widgets/todo_screen.py:73-86 | a whitespace-only title, or else a whitespace-only description, is rejected with its message |
| TodoScreen.StripTwice | pocut/widgets/todo_screen.py:75-89 | stripping is idempotent, and where `int()` accepts the raw priority, stripping it first gives the same number |
| TodoScreen.CheckedTask | pocut/widgets/todo_screen.py:113-119 | an accepted form builds a fresh, uncompleted task with its title, description, priority, due text if any and no day list |
| TodoScreen.IntervalFlags | pocut/widgets/todo_screen.py:104-110 | interval 1, 2, 3, 4 sets exactly daily, weekly, monthly, yearly respectively; any other choice sets no flag |
| TodoScreen.WithInterval | pocut/widgets/todo_screen.py:104-119 | `**interval_options.get(index, {})` spread into the task. `IntervalFlags` states which flag each choice sets |
| TodoScreen.WeeklyFormTaskNoFollowUp | pocut/widgets/todo_screen.py:104-119 | every weekly task the form accepts has an empty day list, so the weekly rule finds no next date for it, whatever its due date and whatever the day |
| TodoScreen.WeeklyWithoutDays | pocut/utils/taskmanager.py:150-151 | a weekly, non-daily task with no listed days gets no next due date |
| TodoScreen.DatedFormTaskNotStorable | pocut/widgets/todo_screen.py:117 | an accepted form with a due date carries it as text, which `add_task` cannot store; without one the task is stored as it is |
| TodoScreen.AcceptedTask | pocut/widgets/todo_screen.py:88-117 | a task the form accepts has a priority in 1..5 and either no due date or a non-empty text one, which is all `add_task` is handed |
| TodoScreen.TaskCreatorWidget.constructor | pocut/widgets/todo_screen.py:26-28 | the form writes to the given table and its status is empty |
| TodoScreen.TaskCreatorWidget.CreateTask | pocut/widgets/todo_screen.py:68-126 | a rejected form shows its message and leaves the table alone; an undated task is appended under the next id with "Task created successfully!"; a dated one shows the `strftime` error and the table is unchanged |
| TodoScreen.TaskCreatorWidget.Report | pocut/widgets/todo_screen.py:80-126 | a rejection only sets its message; an accepted task without a due date is appended under the next id with the success message; one with a text due date leaves the table unchanged and shows the `strftime` error; the table's invariant is kept |
| SettingsTab.DisplaySaveRoundTrip | pocut/widgets/settings_tab.py:31-42 | displaying a duration and saving it unchanged gives `s - s % 60`, exact only for multiples of 60 |
| SettingsTab.NoRangeCheck | pocut/widgets/settings_tab.py:41-46 | any integer typed in, zero and negatives included, is saved as that many minutes |
| SettingsTab.SaveAllOrNothing | pocut/widgets/settings_tab.py:39-49 | unless both inputs parse and the durations table exists the configuration is unchanged; otherwise both durations read back as the converted inputs and every other entry as before |
| SettingsTab.DisplayedMinutes | pocut/widgets/settings_tab.py:31-32 | `str(seconds // 60)`, the whole minutes shown. `DisplaySaveRoundTrip` relates it to `SavedSeconds` |
| SettingsTab.SavedSeconds | pocut/widgets/settings_tab.py:41-42 | `int(text) * 60` on the unstripped input, or `None` where `int()` raises. `NoRangeCheck` states it for every integer, and `SeparatorRejected` shows that a trailing U+001F is refused |
| SettingsTab.SeparatorRejected | pocut/widgets/settings_tab.py:41-42 | the input `"25\x1f"` is refused, because `int()` does not skip U+001F, while `"25\xa0"` is saved as 1500 seconds |
| SettingsTab.Save | pocut/widgets/settings_tab.py:39-49 | the save button on the configuration: convert both, then store both. `SaveAllOrNothing` states the outcome |
| SettingsTab.SettingsTab.constructor | pocut/widgets/settings_tab.py:15-20 | both inputs start empty |
| SettingsTab.SettingsTab.OnMount | pocut/widgets/settings_tab.py:22-32 | fills the work input and then the break input with the duration in whole minutes; a missing or non-integer duration stops there |
| SettingsTab.SettingsTab.OnButtonPressed | pocut/widgets/settings_tab.py:34-49 | the save button converts both inputs before storing either, then stores both through the setters, or changes nothing; other buttons are ignored |

## Left out

- SQLite itself is not modelled: connections, schema creation, SQL text and foreign keys. The table is a sequence of rows with an id counter. `add_task` commits each insert, so rows inserted before a sweep error stay, as in the model. `TaskManager.TaskManager.constructor` gives the empty table and id counter 1 of a new database file. On an existing file, `CREATE TABLE IF NOT EXISTS` keeps the stored rows and the AUTOINCREMENT counter, and the model does not open existing files.
- `get_tasks`, `get_all_tasks` and `close` are not modelled. They read rows without recurrence logic.
- `created_at`, `updated_at` and the time of day are not modelled. Dates are whole days, and only the date part is ever written back.
- `TaskManager.TaskManager.ProcessRepeatedTasks` uses one `now` for the whole sweep. The source reads the clock again in each `_calculate_next_due_date` call.
- PyText.ParseIntShowInt: does not model CPython's 4300-digit limit on `int`/`str` conversion. Past 4300 digits, `str(n)` and `int(text)` raise `ValueError` in the source, while `ShowInt` and `ParseInt` still convert.
- PyText.ParseInt: accepts only the ASCII digits `0`-`9`. Python's `int()` also accepts the other Unicode decimal digits (`int("٣") == 3`), and `strptime`'s `\d` also matches them, so `Dates.ParseIso` refuses such dates where the source accepts them.
- TodoScreen.ValidateOrder: a priority written in non-ASCII decimal digits (such as `"٣"`) is refused as `PriorityInvalid`, where the source's `int()` accepts it. The same goes for a due date in such digits, refused as `DueDateInvalid`. The 4300-digit limit is not modelled either. A priority that long is out of 1..5 whichever error the source raises, so the outcome is the same.
- Integer widths are not modelled. Python integers are unbounded. SQLite ids are 64-bit and are not expected to wrap.
- The progress bar is not modelled. Its percentage is floating point.
- Audio is not modelled: `initialize_audio`, `set_volume` and `play_sound_blocking`. `OnTimeUp` returns the sound it would play. The model treats `play_sound_blocking` as always returning. In the source it has no `try`, so a missing sound file or a mixer that failed to start raises before `toggle_phase`, and the phase does not flip.
- Textual plumbing is not modelled: `compose`, button labels and variants, `notify`, `PhaseDisplay` text and the `query_one` look-ups. The timer's reactive fields are integers, because the source only assigns integers to them.
- TOML text is not modelled. The configuration file is a field holding the last saved configuration. Configuration values are integers or strings, and every top-level entry is a table.
- PomodoroClock.PhaseLoad: for a duration stored as text, the model resets the timer and reports failure. The source stores the text and then raises in the display's watcher.
- PomodoroClock.PomodoroClock.OnTimeUp: the debug-mode notification is left out because it is UI.
- `pocut/widgets/filemodal.py`, `pocut/utils/audio.py`, `pocut/config.py`, `pocut/app.py` and the entry points are not part of this model.
