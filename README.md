# Planner dashboard: a verified model of its state logic

The Planner dashboard is a single-page productivity tool. It has a task list, weekly goals with subtasks, a Pomodoro-style focus timer that records finished focus time in a log, and summary panels and charts over the last seven days. This project models the state logic behind those features in `script.js`, leaving out the DOM, storage and chart code, and proves what that logic promises.

- `common.dfy` (`Common`): the shared vocabulary.
  - `Option`.
  - Ids as strings and calendar days as integers.
  - The Focus/Break session type.
  - A sum over sequences.
  - `RemoveKey`, the `filter((x) => x.id !== id)` used by every delete.
- `tasks.dfy` (`Tasks`): the task records and the pure effect of `addTask`, `updateTask`, `deleteTask` and `clearDoneTasks`. It also defines the completion invariant: a task has a `completedDate` exactly when its status is Done.
- `goals.dfy` (`Goals`):
  - goals and their subtasks;
  - the id-keyed nested updates `deleteGoal`, `addSubtask`, `toggleSubtask` and `deleteSubtask`;
  - the progress percentage of a goal card.
- `focus_log.dfy` (`FocusLog`): focus-log entries, and the effect of one timer transition on the log.
- `stats.dfy` (`Stats`): the seven-day window `buildLast7Days` and the per-day series `getTasksCompletedPerDay` and `getFocusMinutesPerDay`. It also has `sumFocusForRange` and the numbers shown by `updateStats`. The two functions with counting loops are methods with loop invariants.
- `timer_display.dfy` (`TimerDisplay`): `formatTime`. It reproduces JavaScript's `toString`, `padStart`, `Math.floor` and truncating `%`, and is proved against a reader of the `mm:ss` text.
- `dashboard.dfy` (`Dashboard`): the global `state` object as a class. Its methods update the task, goal and focus-log fields in place, and each is proved equal to the pure definitions above.
- `timer.dfy` (`Timer`): the focus timer `currentSession`.
  - Every transition is first a function from a session to the next session and the minutes it logs.
  - Runs of ticks are analysed with lemmas.
  - The `FocusTimer` class then assigns its fields as the source does and is proved to follow those functions.
  - The browser's one-second interval is modelled by calling `Tick` once per elapsed second.

Calendar days are integers, and "today" is a parameter of every operation that reads the clock. Ids from `crypto.randomUUID` are parameters too, required to be fresh.

## Model

| member | source | states |
|---|---|---|
| Common.RemoveKey | script.js:175-176 | the id filter keeps exactly the elements whose id differs, and never grows the list |
| Common.RemoveKeyAppend | script.js:175-176 | filtering by id distributes over concatenation, so survivors keep their order |
| Common.RemoveKeyAbsent | script.js:237-238 | filtering by an id nobody carries returns the list unchanged |
| Common.RemoveKeyIdempotent | script.js:175-176 | filtering twice by the same id is filtering once |
| Tasks.NewTask | script.js:138-148 | the new task carries the given fields and today as creation date; a missing due time becomes ""; its completion date is today when the status is Done and absent otherwise |
| Tasks.Merge | script.js:158-165 | patched fields override and the rest stay; id and creation date stay; completion date is today iff the merged status is Done, even when the patch leaves status alone |
| Tasks.UpdateTask | script.js:156-168 | length and every id are kept; only tasks with the id change, each becoming exactly Tasks.Merge of it with the patch (patched fields override, creation date kept), with completion date today iff the merged status is Done; an unknown id leaves the list unchanged; the completion invariant is preserved |
| Tasks.DeleteTask | script.js:175-176 | a task survives iff it was present and its id differs; an unknown id changes nothing; the completion invariant is preserved |
| Tasks.CountStatus | script.js:485-487 | the count is at most the list length, and zero iff no task has that status |
| Tasks.ClearDoneTasks | script.js:183-184 | a task survives iff it was present and not Done; the length drops by exactly the number of Done tasks |
| Tasks.DeleteUndoesAdd | script.js:175-176 | deleting the fresh id just prepended by addTask gives back the previous list |
| Tasks.DeleteTaskAppend | script.js:175-176 | deleteTask keeps the remaining tasks in their original order |
| Tasks.ClearDoneAppend | script.js:183-184 | clearDoneTasks keeps the non-Done tasks in their original order |
| Tasks.ClearDoneNoop | script.js:183-184 | a list with no Done task is left exactly as it was |
| Tasks.ClearDoneIdempotent | script.js:183-184 | clearing twice equals clearing once; afterwards no task is Done, and under the invariant none has a completion date |
| Tasks.MarkDoneTwice | script.js:156-168 | marking a task Done on two days keeps it Done and moves its completion date to the later call's day |
| Goals.DeleteGoal | script.js:237-238 | a goal survives iff it was present and its id differs; an unknown id changes nothing |
| Goals.DeleteGoalAppend | script.js:237-238 | deleteGoal distributes over concatenation, so the remaining goals keep their order |
| Goals.DeleteGoalUndoesAdd | script.js:230-238 | deleting the fresh goal just prepended by addGoal gives back the previous list |
| Goals.AddSubtask | script.js:244-247 | only goals with the id change, with titles and ids kept; each gets exactly one subtask appended at the end, unfinished, and keeps its earlier subtasks |
| Goals.ToggleIn | script.js:258 | same length, ids and texts; a done flag is flipped iff the subtask id matches |
| Goals.ToggleSubtask | script.js:253-260 | only goals with the id change, and their subtasks are toggled by subtask id; all other goals are unchanged |
| Goals.DeleteSubtask | script.js:266-270 | the number of goals, their ids and titles are kept; only goals with the id lose exactly the subtasks carrying the subtask id, their subtasks becoming the id filter of the old ones |
| Goals.DeleteSubtaskKeepsOrder | script.js:269 | the subtask filter distributes over any split of the target goal's subtasks, so the remaining subtasks keep their order |
| Goals.ToggleInTwice | script.js:258 | toggling the same subtask twice gives back the original subtasks |
| Goals.ToggleSubtaskTwice | script.js:253-260 | toggleSubtask applied twice is the identity on the goal list |
| Goals.DeleteSubtaskUndoesAdd | script.js:266-270 | deleting the fresh subtask just appended by addSubtask gives back the previous goal list |
| Goals.DoneCount | script.js:200 | the count of done subtasks is at most their number; it equals it iff all are done, and is zero iff none is |
| Goals.ShownTotal | script.js:199 | the denominator is the number of subtasks, or 1 when there are none |
| Goals.Progress | script.js:199-201 | the percentage lies in 0..100 and is the whole number nearest to 100·done/total, halves rounded up |
| Goals.ProgressNoneDone | script.js:199-201 | a goal with nothing done, including one with no subtasks, shows 0 % |
| Goals.ProgressAllDone | script.js:199-201 | a goal with every subtask done shows 100 % |
| Goals.ProgressOneOfThree | script.js:199-201 | one of three subtasks done shows 33 % |
| Goals.ShipScenario | script.js:244-258 | after adding a goal, adding a subtask and toggling it, the goal holds that one subtask done and shows 100 % |
| Goals.SubtasksDone | script.js:508 | the "Subtasks done" total is zero iff no subtask of any goal is done |
| FocusLog.Emit | script.js:295-296 | a transition either leaves the log alone or pushes exactly one Focus entry dated today with the logged minutes |
| Stats.Window | script.js:390-398 | the window has n days, the k-th being today - n + 1 + k, oldest first, ending today |
| Stats.BuildLast7Days | script.js:390-398 | the loop counting i from 6 down to 0 yields the seven-day window, from today - 6 to today |
| Stats.CompletedOn | script.js:404 | a day's completed-task count is at most the number of tasks |
| Stats.CompletedSeries | script.js:402-405 | one count per day, each the tasks completed on that day |
| Stats.TasksCompletedPerDay | script.js:400-406 | exactly 7 counts, the k-th for day today - 6 + k, oldest first |
| Stats.CompletedWindowSum | script.js:510 | the per-day counts over a window add up to the tasks completed within its first and last day |
| Stats.CompletedBetweenAtMostDone | script.js:510 | under the completion invariant, tasks completed in any range are at most the Done tasks |
| Stats.FocusOnDay | script.js:412-414 | a day's focus total is at least the minutes of each entry dated that day, and zero when no entry is dated that day |
| Stats.FocusSeries | script.js:410-415 | one total per day, each the minutes logged on that day |
| Stats.FocusMinutesPerDay | script.js:408-416 | exactly 7 totals, the k-th for day today - 6 + k, oldest first |
| Stats.FocusWindowSum | script.js:418-433 | the per-day totals over a window add up to the minutes logged within its first and last day |
| Stats.TrailingDays | script.js:419-424 | the loop counting i from daysBack - 1 down to 0 yields the window of the last daysBack days, oldest first, empty when daysBack is not positive |
| Stats.FocusRangeSum | script.js:418-433 | the focus totals of the trailing window add up to the minutes logged within it; for seven days that is the sum of the chart series |
| Stats.SumFocusForRange | script.js:418-433 | both loops together compute the minutes logged in the last daysBack days; with 7 this equals the sum of the focus series |
| Stats.FocusSeriesTotal | script.js:418-433 | the seven-day focus series adds up to the minutes logged from today - 6 to today |
| Stats.OldEntryIgnored | script.js:418-433 | an entry dated before today - 6 or after today changes neither the focus series nor the seven-day total |
| Stats.RangeExample | script.js:418-433 | 20 minutes yesterday count; 99 minutes ten days ago do not |
| Stats.StatusCountsBounded | script.js:485-487 | the Done and In Progress counts together never exceed the number of tasks |
| Stats.ComputeSummary | script.js:483-512 | each panel number is its definition (completed and in-progress counts by status, today's focus minutes, subtasks done over all goals), and they are consistent: completed plus in progress is at most the total; today's focus is at most the 7-day focus; the 7-day focus is the sum of the series; "done this week" counts completions from today - 6 to today and, under the invariant, is at most the completed count |
| TimerDisplay.NatToString | script.js:277-282 | the decimal text is at least one character, all digits; one digit below 10, at most two below 100 |
| TimerDisplay.IntToString | script.js:277-282 | the text of any integer is non-empty; a negative number starts with '-', a non-negative one is all digits |
| TimerDisplay.PadStart2 | script.js:279 | the padded text has length max(2, len), ends with the original and is padded with zeros |
| TimerDisplay.JsRemainder | script.js:280 | the dividend is the divisor times the quotient truncated toward zero plus the remainder; the remainder has the sign of the dividend and magnitude below the divisor's, which fixes its value |
| TimerDisplay.FormatTime | script.js:276-284 | for 0 to 5999 seconds the display has five characters with ':' in the middle |
| TimerDisplay.NatToStringValue | script.js:277-279 | the decimal text reads back as the number |
| TimerDisplay.PaddedValue | script.js:279 | zero-padding keeps the digits' value |
| TimerDisplay.FormatTimeRoundTrip | script.js:276-284 | every display of a non-negative count reads back as exactly that many seconds, under a reading that accepts only a seconds field below 60, so the minutes/seconds split is the one the display uses |
| TimerDisplay.FormatTimeUnfold | script.js:276-284 | for a non-negative count the display is the padded whole minutes, a colon and the padded remainder |
| TimerDisplay.SplitSeconds | script.js:277-282 | a non-negative count is its floored minutes times 60 plus a remainder below 60 |
| TimerDisplay.FormatTimeExamples | script.js:276-284 | 1500 seconds shows "25:00" and 90 seconds "01:30" |
| TimerDisplay.FormatTimeNegative | script.js:276-284 | -5 seconds shows "-1:-5", as JavaScript's floor and truncating remainder give |
| Dashboard.State.constructor | script.js:8-13 | the state starts with no tasks, goals or log entries |
| Dashboard.State.AddTask | script.js:138-149 | the new task is put first and the previous tasks follow in order; its completion date is today iff its status is Done; the invariant is preserved |
| Dashboard.State.UpdateTask | script.js:156-168 | the task list becomes Tasks.UpdateTask of the old list; the invariant is preserved |
| Dashboard.State.DeleteTask | script.js:175-176 | the task list becomes Tasks.DeleteTask of the old list; the invariant is preserved |
| Dashboard.State.ClearDoneTasks | script.js:183-184 | the task list becomes Tasks.ClearDoneTasks of the old list, with no Done task left; the invariant is preserved |
| Dashboard.State.AddGoal | script.js:230-231 | a goal with no subtasks is put first and the previous goals follow |
| Dashboard.State.DeleteGoal | script.js:237-238 | the goal list becomes Goals.DeleteGoal of the old list |
| Dashboard.State.AddSubtask | script.js:244-247 | the goal list becomes Goals.AddSubtask of the old list |
| Dashboard.State.ToggleSubtask | script.js:253-260 | the goal list becomes Goals.ToggleSubtask of the old list |
| Dashboard.State.DeleteSubtask | script.js:266-270 | the goal list becomes Goals.DeleteSubtask of the old list |
| Dashboard.State.LogFocusSession | script.js:295-296 | exactly one Focus entry dated today with the given minutes is pushed at the end |
| Timer.Initial | script.js:19-25 | the initial session is a paused 25-minute Focus session with a 5-minute break and a full countdown |
| Timer.Switched | script.js:302-306 | the session takes the new type with a full countdown for it; running flag and minute settings are kept |
| Timer.TickStep | script.js:308-324 | paused: nothing changes. Running above one second: only the countdown drops by one. At the end: the timer stops and switches type with a full countdown; Focus logs focusMinutes, Break logs nothing |
| Timer.StartStep | script.js:326-335 | start/pause flips the running flag and changes nothing else |
| Timer.ResetStep | script.js:337-343 | the result is a paused Focus session with focusMinutes·60 seconds; the minute settings are kept |
| Timer.ElapsedMinutes | script.js:353-355 | the whole minutes elapsed in the focus session, rounded down |
| Timer.StopStep | script.js:345-367 | paused: no-op. Running: ends as reset. Logs iff the session is Focus and at least one whole minute has elapsed, and then logs exactly that many minutes |
| Timer.PresetStep | script.js:373-378 | a preset sets both minute values and leaves a paused Focus session with the new full countdown |
| Timer.TransitionsKeepInRange | script.js:302-378 | tick, start/pause, stop and preset all keep the countdown between 0 and its session's length |
| Timer.StopLogsAtMostSessionLength | script.js:352-360 | for a countdown in range, stop never logs more minutes than focusMinutes |
| Timer.DisplayReadsBack | script.js:286-287 | the display of any countdown in range reads back as that countdown |
| Timer.RunTicks | script.js:332 | repeated ticks keep both minute settings, log at most one entry per tick, every entry being focusMinutes, and keep the countdown in range |
| Timer.RunTicksSplit | script.js:308-324 | ticks split at any point: the second part starts where the first ended, and the logs concatenate |
| Timer.PausedIgnoresTicks | script.js:308-309 | any number of ticks on a paused timer changes nothing and logs nothing |
| Timer.CountingDown | script.js:308-311 | fewer ticks than the countdown shows only count down, and log nothing |
| Timer.FocusRunsOut | script.js:308-324 | running a focus countdown to zero logs focusMinutes once and leaves a paused Break with a full countdown |
| Timer.FullFocusSession | script.js:308-324 | m·60 ticks of a running m-minute focus session log exactly one entry of m minutes; any further ticks change nothing |
| Timer.DefaultSessionCompletes | script.js:19-25 | from the initial session, start and 1500 ticks log one 25-minute entry and leave a paused 5-minute break |
| Timer.StopAfterTicks | script.js:345-367 | stopping after k ticks, fewer than the session's, logs k div 60 minutes when that is positive, else nothing; the timer ends paused in a fresh Focus session |
| Timer.StopAfterNinetySeconds | script.js:345-367 | 90 ticks into a 25-minute session, stopping logs 1 minute |
| Timer.ResetIdempotent | script.js:326-343 | reset twice equals reset once; a preset is a reset with the new lengths; start/pause twice is the identity |
| Timer.FocusTimer.constructor | script.js:19-25 | the timer starts as a paused 25-minute Focus session with a 5-minute break |
| Timer.FocusTimer.SwitchSession | script.js:302-306 | the fields become Timer.Switched of the old session |
| Timer.FocusTimer.Tick | script.js:308-324 | the fields become TickStep of the old session; the log gets exactly the entry TickStep emits; the countdown stays in range |
| Timer.FocusTimer.StartTimer | script.js:326-335 | the fields become StartStep of the old session |
| Timer.FocusTimer.ResetTimer | script.js:337-343 | the fields become ResetStep of the old session; the log is not touched |
| Timer.FocusTimer.StopTimer | script.js:345-367 | the fields become StopStep of the old session; the log gets exactly the entry StopStep emits |
| Timer.FocusTimer.ApplyPreset | script.js:373-378 | the fields become PresetStep of the old session with the new minute values |

## Left out

- DOM rendering and event binding are not modelled. This covers the task and goal lists, the hero metrics, the HTML of `updateStats`, the calendar, `renderTimer`, `renderDate`, navigation and the sidebar.
- The form handlers' checks for a non-empty title or subtask text belong to that binding code. `addTask`, `addGoal` and `addSubtask` themselves accept any text, and so do the model's operations.
- `loadState`/`saveState` are not modelled; they use the browser's key-value storage and JSON. The state lives only in memory.
- The `theme` field of `state` and `setTheme` are not modelled; they only affect the page's appearance.
- Browser timers are not modelled. This covers `setInterval`/`clearInterval`, the `timerInterval` handle and `startClock`. A tick is an explicit call to `Tick`, once per elapsed second.
- `alert` notifications are not modelled.
- `updateCharts` is not modelled because it calls the Chart.js library. Only the data series it plots are modelled.
- Dates are whole days and "today" is a parameter. The `Date`/`toISOString` day keys, the `setDate` arithmetic and the mismatch between UTC keys and local days are not modelled.
- Ids from `crypto.randomUUID` are parameters, required to be fresh.
  - Dashboard.State.AddSubtask: where several goals share the target id, the source draws a distinct random id for each appended subtask. The model appends the same given id to each.
- The progress ring's angle in degrees is not modelled; it is a floating-point display value.
- The empty notes stubs `renderNotes`, `saveNote` and `bindNotes` are not modelled.
- Goals.Progress: the source computes `Math.round((done / total) * 100)` in floating point. The model uses exact rational rounding (halves up). Binary rounding error could differ from it only when the exact value is a half-integer.
- Tasks.UpdateTask: a patch object carrying `id`, `createdDate` or `completedDate` keys is not modelled. The callers only pass the form fields or `{ status }`.
- Timer.PresetStep: `Number(btn.dataset.focus)` of the preset buttons is modelled as a whole number of minutes. Non-numeric data attributes, which would give `NaN`, are not modelled.
- Stats.SumFocusForRange: the JavaScript default argument `daysBack = 7` is not modelled; callers pass the value, and the module's own uses pass 7.
- Stats.FocusOnDay: `Number(f.minutes || 0)` on stored entries is modelled as whole minutes. Entries loaded from storage with other values are outside the model, since loading is not modelled.
