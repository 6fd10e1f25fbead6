# Verified models of the engine's cores

These Dafny modules model the parts of the Go engine whose behaviour rests on loops, arithmetic or
interleaving, and prove what those parts are for. Each module's header names the source files it
follows. Code that updates fields is a class whose methods are tied to functions on values; loops are
loops with invariants; the properties are lemmas about those functions, or about every run of a state
machine whose steps are the source's statements on a table, regions under a lock and operations on a
channel. The one-statement methods of the tables have no row below: the `Perform` methods show that the
steps of the state machines are made of them.

- `Text`, `Diff`, `Hunks`, `Patch`: the unified diff. `Patch` holds a reader and an applier written
  from POSIX.1-2017, `diff`, STDOUT, "Diff -u or -U Output Format", as the partner of the writer.
- `Calendar`, `Cron`, `CronHorizon`, `CronParse`, `Schedule`: cron expressions and the next run of a task;
  `CronFields`, `CronWords`, `Shortcuts`, `Clock`: what fields, words, shortcuts and plans mean, by their text;
  `EveryMinute`, `LeapDay`: two expressions that behave unexpectedly.
- `PyTime`, `Leasing`, `LeaseRuns`, `RunRecords`: the stored time format, the task table, several schedulers
  on it, and the rows their executions leave.
- `Approvals`, `ApprovalRuns`: asking a person, with timers, interruptions, restarts and failing statements.
- `Turns`: the thread lock that turns share with compaction, and the delivery to a turn's waiter.
- `ToolRounds`, `TurnLoop`: the turn's budget, the loop guard, and the fallback from model to model.
- `Ranking`, `Routing`: stable rankings of models, and the plan of routes.
- `GuestPath`, `GuestClean`: following links inside a guest's file tree, and what cleaning paths changes.
- `Undo`: the log of a turn's file changes, its undo and its diff.
- `Mcp`: matching answers to calls on an MCP server's standard streams.

`dafny verify dfyconfig.toml` checks the whole project.

## Where the code does something else than it says

Each of these follows the code. The lemmas named give an input that shows it, the exact condition
under which the promise is kept, or both.

- A cron step so large that the lower bound plus the step exceeds a 64-bit integer stops the program
  (`CronParse.StarStepCrashesIff`, `CronParse.CrashesIff`).
- A next run that is not strict is meant to be at or after now, and may be earlier: for a one-time task that
  is over, and for a cron minute that has begun (`Schedule.AnswersBeforeNowIff`,
  `EveryMinute.AnswersEarly`). Creation refuses what is more than a minute in the past
  (`Schedule.FirstRunIsRecent`).
- A task whose execution outlives its lease may run twice, and a completed task may become active again
  (`LeaseRuns.NeverTwiceInFlightIff`, `LeaseRuns.StaysOverIff`, `LeaseRuns.OverrunBreaksBoth`).
- An approved action may still be reported as unanswered (`ApprovalRuns.ApprovedTurnMayExpire`,
  `ApprovalRuns.ApprovedGoesOnIff`).
- A file that can be written but not read is taken to be missing: a turn that writes to it is said to have
  created it, and the undo removes it (`Undo.UnreadableFileIsRemoved`, `Undo.WritesRevertExactlyIff`).
- The recorder's interface allows deletions, though no tool records one; if one of a file over 1 MiB were
  recorded, the undo would write an empty file, although files too large to keep are said to be left alone
  (`Undo.BigDeletedFileIsLost`, `Undo.RevertIsExactIff`).
- An empty file that was changed is skipped, and blamed on its size (`Undo.EmptyFileIsCalledTooLarge`,
  `Undo.TurnIsUndoneIff`).
- A diff of an undone turn may show a reverted path, when the turn has more rows than the diff's limit
  (`Undo.LongTurnIsShown`, `Undo.RevertedIsShownIff`).
- A second plan one level lower is made when the deepest level offers nothing; it never offers anything
  either (`Routing.SecondLookIsFutile`).
- Cleaning a path or a link's target before following links may find another file
  (`GuestClean.CleaningMayFindAnotherFile`, `GuestClean.PathIsHarmlessIff`, `GuestClean.TargetIsHarmlessIff`).
- A path with a newline in it makes a diff header that names another file (`Patch.ReadsFileHeader`).
- A round of tool calls is not written unambiguously when results are missing; the loop never lets that
  happen (`ToolRounds.MissingResultsCollide`, `ToolRounds.SameTextSameRound`).

## Model

| member | source | states |
|---|---|---|
| Diff.DiffLines | internal/projects/diff.go:73-130 | The script turns the old lines into the new ones, numbers every entry with its own line in each file, keeps as many lines as a longest common subsequence of the whole files, changes no more lines than any other script, and puts deletions before additions. |
| Diff.KeepsAtMostLcs | internal/projects/diff.go:73-130 | No script between two files, however made, keeps more lines than their longest common subsequence has. |
| Diff.LcsKeepsAreMinimal | internal/projects/diff.go:73-130 | A script that keeps that many adds and deletes no more lines than any other script between the same files. |
| Diff.Accounting | internal/projects/diff.go:73-130 | Kept and deleted lines account for the old file, kept and added ones for the new. |
| Diff.NumberedAt | internal/projects/diff.go:101-129 | Each entry carries the number of its own line on each side, counted in the lines before it. |
| Diff.FillTable | internal/projects/diff.go:86-100 | Entry (i, j) of the table is the longest common subsequence of what is left from line i and line j. |
| Diff.LcsPrefix | internal/projects/diff.go:76-79 | A common beginning adds exactly its length to the longest common subsequence. |
| Diff.LcsSuffix | internal/projects/diff.go:80-84 | So does a common end. |
| Diff.TrimmingIsExact | internal/projects/diff.go:76-85 | Trimming both ends first loses no common line of the full inputs. |
| Diff.CommonPrefix | internal/projects/diff.go:76-79 | The trimmed beginning is common and cannot be longer. |
| Diff.CommonSuffix | internal/projects/diff.go:80-84 | The trimmed end is common, does not reach into the beginning, and cannot be longer. |
| Diff.WalkTable | internal/projects/diff.go:105-125 | Following the table over the middle extends the script over both middles and keeps as many lines as they have in common. |
| Diff.NoDeletionAfterAddition | internal/projects/diff.go:105-119 | Ties resolved in favour of deletions never delete right after an addition. |
| Hunks.WriteHunks | internal/projects/diff.go:133-198 | The text is the print of hunks that are exactly the maximal stretches of entries within three of a change, in order and apart. |
| Hunks.HunksAreUnique | internal/projects/diff.go:135-165 | Only one grouping into hunks has that property. |
| Hunks.GapsOfSixAreBridged | internal/projects/diff.go:151-160 | Two neighbouring changes share a hunk if and only if at most six kept lines lie between them. |
| Hunks.ContextIsThree | internal/projects/diff.go:133-165 | Every hunk begins at most three lines before its first change and ends at most three after its last, and exactly three unless the file ends there. |
| Hunks.RunEnd | internal/projects/diff.go:145-161 | The look-ahead stops behind a change that more than six kept lines, or the end, follow, and everything before it is near a change. |
| Hunks.Count | internal/projects/diff.go:166-180 | The counts and first lines of a header are those of the stretch, and zero for an empty side. |
| Patch.PrintedDiffApplies | internal/projects/diff.go:16-43 | The printed diff has a header whose two lines, read by their own form, name "a/" and "b/" before the path if and only if the path has no newline; read then as a POSIX unified diff and applied to the old text, it gives exactly the new text, including a missing newline at the end. |
| Patch.Unified | internal/projects/diff.go:16-43 | The same for the whole function unless it truncates; equal texts give nothing; the counts are those of a smallest change; oversized inputs are summarised by exact line counts. |
| Patch.ReadsFileHeader | internal/projects/diff.go:35-36 | A reader of the two header lines finds "a/" and "b/" before the path, and goes on behind them, if and only if the path has no newline. |
| Patch.ReadsHunk | internal/projects/diff.go:181-195 | One printed hunk is read back: its four numbers, its entries, and nothing of what follows. |
| Patch.ReadsHunks | internal/projects/diff.go:133-198 | All printed hunks are read back in order. |
| Patch.ReadsLine | internal/projects/diff.go:182-195 | A printed entry is read back with its "No newline" marker. |
| Patch.ReplaysHunks | internal/projects/diff.go:133-198 | Applying the hunks from their stated line numbers on produces the new file. |
| Patch.EmptySideMeansEmptyFile | internal/projects/diff.go:166-181 | A hunk has an empty side, numbered 0, only if that whole file is empty. |
| Patch.StartsWithContext | internal/projects/diff.go:141-144 | Unless it starts the script, a hunk starts with a kept line. |
| Patch.EndsWithContext | internal/projects/diff.go:145-165 | Unless it ends the script, a hunk ends with a kept line. |
| Patch.QuietBetween | internal/projects/diff.go:135-165 | Between hunks nothing changes. |
| Patch.CountLinesIsExact | internal/projects/files.go:200-209 | Counting newlines gives the number of lines that splitting gives. |
| Text.SplitThenJoin | internal/projects/diff.go:45-54 | Splitting a text gives lines, of which only the last may lack its newline, and joining them gives the text back. |
| Text.JoinThenSplit | internal/projects/diff.go:45-54 | A list of such lines is recovered from its text. |
| Text.LessIff | internal/projects/changes.go:223-223 | Texts are sorted by their first difference, and a beginning before what goes on. |
| Cron.Next | internal/tasks/schedule.go:304-327 | The result is the least matching minute strictly after the given one and before the five-year limit; without a result no minute in that range matches. The month, day and hour jumps skip no match. |
| Cron.EitherDayMatches | internal/tasks/schedule.go:330-341 | With both day fields restricted a minute matches if and only if it would with one or the other of them starred; with one starred the other decides, with both any day matches. |
| Cron.SkipMonth | internal/tasks/schedule.go:308-311 | Jumping to the next month passes no matching minute. |
| Cron.SkipDay | internal/tasks/schedule.go:312-315 | Jumping to the next day passes no matching minute. |
| Cron.SkipHour | internal/tasks/schedule.go:316-319 | Jumping to the next hour passes no matching minute. |
| CronHorizon.AlwaysFindsIff | internal/tasks/schedule.go:304-341 | The search finds something from every moment if and only if weekdays are restricted or some named day exists in a named month every year. |
| CronHorizon.FindsNextYear | internal/tasks/schedule.go:304-341 | Where that holds, something matches within the next calendar year. |
| CronHorizon.LeapDayGap | internal/tasks/schedule.go:304-308 | Where it does not, only a 29 February is named, and from 1 March 2096 the five years hold none. |
| CronHorizon.WeekdayInMonth | internal/tasks/schedule.go:330-341 | Every weekday comes in the first week of every month. |
| CronParse.ParseCron | internal/tasks/schedule.go:215-249 | An accepted expression has five non-empty tables within their bounds that mean what its fields say, with 7 as another Sunday; otherwise the first field that fails decides. |
| CronParse.ParseField | internal/tasks/schedule.go:251-301 | The table of an accepted field holds exactly the union of the progressions of its parts. |
| CronParse.Mark | internal/tasks/schedule.go:296-298 | The marking loop marks exactly the values of one progression, or indexes outside its table exactly when the 64-bit step overflows. |
| CronParse.HitsIff | internal/tasks/schedule.go:296-298 | A progression names the first value plus the multiples of its step, up to its last. |
| CronParse.SelectsWithin | internal/tasks/schedule.go:251-301 | An accepted field names at least one value and only values within its bounds. |
| CronParse.PartIsWithin | internal/tasks/schedule.go:262-295 | An accepted part starts within the bounds, ends within them and is not empty. |
| CronParse.StarSelectsAll | internal/tasks/schedule.go:271-273 | A bare star names every value. |
| CronParse.StarStepCrashesIff | internal/tasks/schedule.go:263-298 | A step on a star is accepted unless the lower bound plus the step exceeds the largest 64-bit integer: then the program stops with an index out of range. |
| CronParse.CrashesIff | internal/tasks/schedule.go:262-299 | A field stops the program if and only if some part overflows and no part before it is rejected. |
| CronParse.AtoiOfDecimal | internal/tasks/schedule.go:256-268 | A numeral is read as its value exactly if it fits in 64 bits. |
| CronFields.RangeWithStep | internal/tasks/schedule.go:262-299 | "a-b/s", of numbers or names within the bounds, selects exactly the values from a to b that lie a multiple of s behind a, and stops the program exactly if a + s exceeds 64 bits. |
| CronFields.RangeOf | internal/tasks/schedule.go:274-295 | "a-b" selects exactly the values from a to b. |
| CronFields.ValueWithStep | internal/tasks/schedule.go:262-299 | "a/s" selects a and every s-th value up to the upper bound; "a/1" only a. |
| CronFields.ValueAlone | internal/tasks/schedule.go:286-295 | A number or a name selects its value alone. |
| CronFields.StarWithStep | internal/tasks/schedule.go:262-299 | "*/s" selects every s-th value from the lower bound on. |
| CronFields.ListSelectsBoth | internal/tasks/schedule.go:261-299 | A list selects what one or the other of its halves selects; the first half that fails decides. |
| CronFields.HitsByRemainder | internal/tasks/schedule.go:296-298 | A progression names the values between its first and last that leave no remainder. |
| CronFields.MonthsAreNamed | internal/tasks/schedule.go:232-232 | The twelve short names mean the numbers of their months. |
| CronFields.DaysAreNamed | internal/tasks/schedule.go:233-233 | The seven short names mean the numbers of their days, from Sunday on. |
| CronFields.DownwardRange | internal/tasks/schedule.go:283-285 | A range that goes down is refused. |
| CronFields.OutOfBounds | internal/tasks/schedule.go:256-260 | A number outside the bounds is refused. |
| CronFields.UnknownWord | internal/tasks/schedule.go:252-260 | A word that is no name of the field is refused. |
| CronFields.StepOfNothing | internal/tasks/schedule.go:264-270 | A step of 0 is refused, whatever it belongs to. |
| CronFields.AtoiOfSigned | internal/tasks/schedule.go:256-268 | A sign before a numeral changes its value accordingly, within 64 bits. |
| CronFields.AtoiNeedsDigits | internal/tasks/schedule.go:256-268 | Nothing is read as a number but digits, with at most one sign before them. |
| CronWords.WordByWord | internal/tasks/schedule.go:227-230 | An expression is read word by word, whatever white space of the six kinds lies around the words. |
| CronWords.TrimsEnds | internal/tasks/schedule.go:216-216 | Trimming takes the white space from both ends, and nothing else. |
| CronWords.LowersLetters | internal/tasks/schedule.go:253-255 | Names are found in any case: every capital letter becomes its small one, and nothing else changes. |
| Shortcuts.ShortcutsMean | internal/tasks/schedule.go:216-226 | The five shortcuts are accepted and name every full hour, every midnight, midnight of every Sunday, and midnight of the first of every month. |
| Schedule.Next | internal/tasks/schedule.go:92-168 | For each kind of task the next run is the earliest slot, the least cron match, the one-time instant, or an error, as its schedule demands; an hourly minute that no hour has gives the computed minute of this hour or, if that is over, an hour later. |
| Clock.DailyRun | internal/tasks/schedule.go:127-134 | A daily task runs at the first instant, after now or at now when not strict, when the local clock shows its hour and minute. |
| Clock.WeeklyRun | internal/tasks/schedule.go:135-148 | A weekly task runs at the first when the clock shows its hour and minute on the day its weekday names, Monday if it names none. |
| Clock.HourlyRun | internal/tasks/schedule.go:118-126 | An hourly task runs at the first instant when the clock shows its minute, or the full hour if it has none. |
| Clock.OneTimeRun | internal/tasks/schedule.go:107-114 | A one-time task runs at its time, or never again if a strict answer is asked for and that is over. |
| Clock.ValidIff | internal/tasks/schedule.go:45-83 | A periodic plan is accepted if and only if computing its next run cannot fail and it names no minute outside the hour, no unknown weekday and no blank frequency. |
| Schedule.NextSlot | internal/tasks/schedule.go:97-148 | The next hourly, daily or weekly run is the least instant after now, or at or after it when not strict, with the given minute, time or weekday. |
| Schedule.SlotIsLeast | internal/tasks/schedule.go:98-148 | A slot after now whose predecessor one period earlier is not after now is the next slot. |
| Schedule.FallsIff | internal/tasks/schedule.go:120-148 | An instant is a slot if and only if its minute count has the remainder of the rule by the rule's period. |
| Schedule.CurrentSlot | internal/tasks/schedule.go:120-145 | The slot of the current hour, day or week lies less than one period from now. |
| Schedule.NextCron | internal/tasks/schedule.go:149-162 | A cron task runs at the least match after now, or from the start of now's minute when not strict. |
| Schedule.StrictCronIsLater | internal/tasks/schedule.go:149-162 | A strict cron answer is later than now. |
| Schedule.NonStrictCronIsEarlierIff | internal/tasks/schedule.go:149-162 | A non-strict cron answer lies before now if and only if now is past the start of a minute that matches. |
| EveryMinute.AnswersEarly | internal/tasks/schedule.go:149-162 | Such an answer exists: "* * * * *", asked not strictly half a minute past midnight, next runs at midnight. |
| Schedule.ParseTimeIff | internal/tasks/schedule.go:171-183 | A time of day is accepted, as this hour and minute, if and only if it is blank and nine o'clock, or the two numerals around its first colon are that hour and minute within range. |
| Calendar.ReadIsExact | internal/tasks/schedule.go:304-319 | The civil date of a minute count is a real date, and counting it back gives the same minute. |
| Calendar.ReadIsUnique | internal/tasks/schedule.go:304-319 | A real date is the only one with its minute count. |
| Calendar.KnownDates | internal/tasks/schedule.go:304-341 | Days, weekdays and the leap days of 2000 and 2100 at known dates. |
| Calendar.WeekdaysFollow | internal/tasks/schedule.go:330-331 | Each day has the weekday after that of the day before. |
| PyTime.TextOrderIsTimeOrder | internal/store/tasks.go:13-15 | Up to the year 9999 the stored text of one instant sorts before that of another if and only if it is earlier, to the microsecond. |
| PyTime.TextShowsTheTime | internal/store/tasks.go:13-15 | The stored text has 27 characters whose digits, read by their places, are the date, second and microsecond of the instant. |
| PyTime.Year10000SortsFirst | internal/store/tasks.go:13-15 | Beyond that it does not: the year 10000 sorts before the year 9999. |
| Leasing.TaskStore.LeaseDueTasks | internal/store/tasks.go:117-155 | Claims exactly the first tasks, up to the limit, in order of due time and number, that are active, due and not leased, and leases just those; none of them waits longer than one taken, and due times rise along the answer. |
| Leasing.SelectDue | internal/store/tasks.go:127-141 | The query returns a selection of the claimable tasks in that order. |
| Leasing.SelectionIsMostOverdue | internal/store/tasks.go:127-141 | Due times never fall along a selection, equal ones come by rising number, and every other task that could be claimed is due no earlier, with a higher number if equally due. |
| Leasing.ClaimableAfterFinish | internal/store/tasks.go:179-205 | A finished task can be claimed again once its next run is due, unless it was cancelled or has none. |
| Leasing.ClaimableAfterRunNow | internal/store/tasks.go:213-224 | An active task asked to run now can be claimed at once unless it is leased. |
| Leasing.ClaimableAfterReleaseAndCancel | internal/store/tasks.go:99-211 | A task whose lease was given back can be claimed if it is active and due; a cancelled one never. |
| Leasing.SelectionIsUnique | internal/store/tasks.go:127-141 | There is only one such selection. |
| LeaseRuns.NeverTwiceInFlightIff | internal/tasks/scheduler.go:141-200 | Over every run from an empty table, with any number of schedulers: no task is ever in flight twice if and only if no claim takes a task whose execution has outlived its lease. |
| LeaseRuns.StepKeepsInv | internal/tasks/scheduler.go:141-200 | Every step except such a claim keeps each execution in possession of its task's lease, whether or not leases have run out. |
| LeaseRuns.ClaimableInFlightIff | internal/tasks/scheduler.go:141-160 | A task being executed can be claimed again if and only if it is active, due and its lease has run out. |
| LeaseRuns.ClaimDuplicatesIff | internal/tasks/scheduler.go:141-160 | From such a state, a claim leads to a second execution at once if and only if it takes a task whose execution has outlived its lease. |
| LeaseRuns.CancelledStays | internal/store/tasks.go:99-224 | A cancelled task stays cancelled, whatever happens. |
| LeaseRuns.CompletedNeverReactivates | internal/store/tasks.go:179-224 | From an empty table, a task that is over at some point of a run without such claims is never active again. |
| LeaseRuns.OneTimeStaysOver | internal/tasks/scheduler.go:176-198 | A one-time task that is over is never active again, whatever happens. |
| LeaseRuns.OverrunBreaksBoth | internal/tasks/scheduler.go:163-200 | One run from an empty table, with the schedule "0 0 29 2 *": created on the day before 29 February 2096, claimed three years later, and claimed again after its lease, the task is in flight twice; one execution ends when the schedule has no next run and completes it, the other ends two hours later, when it has one, and makes it active again. |
| LeaseRuns.FirstClaim | internal/tasks/scheduler.go:141-180 | The beginning of that run: the task is created on an empty table with the due time that creation computes, and claimed and started once overdue. |
| LeaseRuns.SecondClaim | internal/tasks/scheduler.go:141-180 | A microsecond after the lease the same task is claimed and started again. |
| LeaseRuns.Schedulers.Perform | internal/tasks/scheduler.go:141-200 | Every step of a run is what the table's statements do; a claim takes exactly the tasks the step names, as the query has one answer. |
| RunRecords.ExecutionsHaveTheirRows | internal/store/tasks.go:157-169 | Over every run, also where leases run out, each execution that has begun has an open row of its own, of its own task. |
| RunRecords.FinishRecordsItsOwn | internal/store/tasks.go:179-205 | Finishing records success or failure in just that row. |
| RunRecords.RecordedOnce | internal/store/tasks.go:179-205 | An outcome, once recorded, stays over every run, also when the task is executed again. |
| RunRecords.CreatedIsDue | internal/tasks/scheduler.go:62-72 | A new task has a schedule that is accepted, and is active, free and due no more than a minute ago. |
| RunRecords.RunNowIsNow | internal/tasks/scheduler.go:98-108 | A task asked to run now can be claimed at once unless it is leased. |
| RunRecords.LeasedUntil | internal/store/tasks.go:142-154 | A claimed task can be claimed again exactly once its lease has passed, if nothing else happens to it, and its execution carries that lease. |
| RunRecords.StartIsNoted | internal/store/tasks.go:157-169 | Starting an execution notes when its task last ran, and changes nothing else of any task. |
| ApprovalRuns.StepKeepsInv | internal/engine/approvals.go:21-103 | Every statement, lock region and channel operation keeps: one winner per request, at most one value per channel, and that value is the row's. |
| ApprovalRuns.Engine.Perform | internal/engine/approvals.go:21-114 | Every step of a run is what the statements on the table, the regions under the lock and the channel operations do. |
| ApprovalRuns.DecidedOnce | internal/store/records.go:351-362 | Once a row is no longer pending it keeps its status over every run. |
| ApprovalRuns.AllowedOnlyByAPerson | internal/engine/approvals.go:31-114 | A request is allowed, or denied, only if its own row says so, or its action had this answer remembered before the run, or got it during the run from a person who asked for that to be remembered; an answered request ends as its row says. |
| ApprovalRuns.RememberedAnswersAreUsed | internal/engine/approvals.go:31-40 | What a person asked to be remembered is what every later request for the same action is told at once, over any run and any restart, until it is forgotten or another answer is remembered. |
| ApprovalRuns.ForgottenIsAsked | internal/engine/approvals.go:31-43 | What was forgotten, and what has no project, is asked. |
| ApprovalRuns.AnswerArrives | internal/engine/approvals.go:60-76 | An answer that found its channel is what the turn receives, if it still waits or takes its last look. |
| ApprovalRuns.PendingExpires | internal/engine/approvals.go:63-85 | When its time is up, its turn is interrupted or the program restarts, a pending row expires and a decided one stays. |
| ApprovalRuns.SentAtMostOnce | internal/engine/approvals.go:88-103 | Over any run at most one value is sent on a request's channel, and none once the request is decided and no answer is under way. |
| ApprovalRuns.SendNeverWaits | internal/engine/approvals.go:98-103 | Whenever an answer is about to be sent the channel is empty, so answering never blocks. |
| ApprovalRuns.ExpiredRequestsAreDecided | internal/engine/approvals.go:60-86 | A request that timed out or was interrupted has a decided row, unless a statement on the table failed. |
| ApprovalRuns.ApprovedTurnMayExpire | internal/engine/approvals.go:41-76 | The converse is not kept: in two runs without any failure the row is approved and the turn is told that nobody answered. |
| Turns.OneHolder | internal/engine/turn.go:178-209 | In every reachable state a thread has at most one holder, turn or compaction. |
| Turns.MapsAgree | internal/engine/turn.go:178-209 | A turn is active exactly from its claim to its release, exactly then its thread names it, and a thread is taken exactly if somebody holds it. |
| Turns.LaterLocksAreSafe | internal/engine/turn.go:239-243 | The deferred second release changes no map; a compaction always finds its own lock when it unlocks. |
| Turns.TakenIffFree | internal/engine/turn.go:178-192 | A turn or a compaction takes a thread if and only if nobody holds it; otherwise nothing changes. |
| Turns.CancelledIffInterrupted | internal/engine/turn.go:247-257 | A turn under way is cancelled if and only if somebody interrupted it since it began. |
| Turns.WritesDecide | internal/engine/turn.go:205-236 | Over every run, a turn fails if and only if one of its writes does, and is under way if and only if all three succeeded. |
| Turns.SecondReleaseWouldFreeTheNextTurn | internal/engine/turn.go:194-209 | Without the once-only guard it would: a state is reached in which a second release takes the thread from the next turn. |
| Turns.WaiterIsToldExactlyOnce | internal/engine/turn.go:818-851 | A finished turn has told its waiter exactly once, a turn that failed to start tells nobody and leaves no waiter behind, and the send never has to wait. |
| Turns.TurnEndsInBoundedSteps | internal/engine/turn.go:178-245 | However others interleave, a turn takes a bounded number of steps of its own. |
| Turns.TurnsMoveForward | internal/engine/turn.go:178-245 | A turn that is not over can always take its next step, each step brings it closer to its end, and nobody else moves it. |
| Turns.StepKeepsInv | internal/engine/turn.go:178-245 | Every lock region of turns and compactions keeps the maps, the waiters and the deliveries in agreement. |
| Turns.Engine.Perform | internal/engine/turn.go:178-245 | Every step of a run is what the lock regions do, with a release that does something only once, and keeps the invariant. |
| TurnLoop.RunTurn | internal/engine/turn.go:380-437 | In every world of models, tools, clock and user: at most as many attempts as the tool ceiling and the routes together; the attempts and their answers are the world's; one round for each answer that was followed, with each call's own result in its place; never three equal rounds before the last; and the outcome is the one its cause demands, at the round and attempt at which the turn stopped. |
| TurnLoop.RoundsFollowTheWorld | internal/engine/turn.go:407-428 | Each round has the calls of the answer with its number, and to every call in its place the result the world gives to just that call. |
| TurnLoop.CallModel | internal/engine/turn.go:520-575 | A model call answers with the last attempt's calls, or gives up for a cause that holds at that attempt; each route fails at most once, "no other model" comes only after every route failed, and no attempt starts once the turn's tokens or money are used up. |
| TurnLoop.WalksGoDown | internal/engine/turn.go:550-560 | In the attempts of a turn the routes go down the plan one by one: a route that was left is never tried again and none is skipped. |
| TurnLoop.AttemptsSoFar | internal/engine/turn.go:520-575 | While a turn goes on, its attempts are fewer than its answers plus its routes; afterwards no more than that. |
| TurnLoop.AttemptIsSound | internal/engine/turn.go:536-560 | One attempt keeps the trail, the place in the plan and the sums of tokens and money in step. |
| TurnLoop.Resolved.Next | internal/router/router.go:73-81 | Gives the next untried route of the plan, and none after the last. |
| ToolRounds.TurnBudget.ObserveToolRound | internal/engine/turn_budget.go:45-66 | Answers how often in a row the same written round was seen last, counting this one. |
| ToolRounds.WriteRound | internal/engine/turn_budget.go:46-57 | The hash is fed exactly the written form of the calls and their results. |
| ToolRounds.DecodeEncode | internal/engine/turn_budget.go:50-57 | The written parts can be read back, so no two lists of parts are written alike. |
| ToolRounds.SameTextSameRound | internal/engine/turn_budget.go:45-58 | With a result for every call, two rounds are written alike if and only if they are the same. |
| ToolRounds.MissingResultsCollide | internal/engine/turn_budget.go:49-52 | With results missing, different rounds are written alike. |
| ToolRounds.RepeatsIsLongest | internal/engine/turn_budget.go:58-65 | The repeat count is the length of the longest suffix of equal rounds. |
| ToolRounds.RepeatedTexts | internal/engine/turn_budget.go:58-65 | Counting equal written forms is counting equal rounds, when every call has a result. |
| ToolRounds.TurnBudget.StopReason | internal/engine/turn_budget.go:32-43 | There is no reason to stop exactly while time, tokens and money are all below their limits. |
| Ranking.TierIsStrictWeak | internal/models/tiers.go:37-71 | The comparison of every level is a strict weak order. |
| Ranking.TierIsTheStableSort | internal/models/tiers.go:34-73 | A tier is the one stable rearrangement of the catalog in the order of its level. |
| Ranking.TierRanks | internal/models/tiers.go:37-71 | Of two models of a tier the first stands before the second for a reason: reasoning and a high price when deep; tools, the cheap model and a low price when quick; the default, tools and a low price otherwise, with unpriced models last, or first when quick. |
| Ranking.TiersHaveTheSameModels | internal/models/tiers.go:34-73 | Every level ranks the same models. |
| Ranking.SortIsStable | internal/models/tiers.go:37-71 | Sorting by a strict weak order orders the list and keeps ties as they were. |
| Ranking.StableSortIsUnique | internal/models/tiers.go:37-71 | There is only one such rearrangement. |
| Ranking.OrderedIsTheStableSort | internal/router/router.go:254-289 | A pool's order is the written one, or the one stable rearrangement by its strategy. |
| Ranking.PoolRanks | internal/router/router.go:254-289 | A pool by priority is as written; by quality reasoning models and dear ones come first, otherwise models with tools and cheap ones. |
| Ranking.PoolIsStrictWeak | internal/router/router.go:277-287 | A pool's comparison is a strict weak order. |
| Routing.MakePlan | internal/router/router.go:122-248 | The routes are the first usable ones, up to the cap, of the distinct choices looked at; those set aside are listed with their reasons; an empty plan says why; without any key there is nothing. |
| Routing.OfferedIff | internal/router/router.go:147-169 | A choice is offered, and in which place, if and only if it can serve, no earlier choice has its key, and fewer than the cap of such choices come before it. |
| Routing.Plan.Add | internal/router/router.go:147-169 | Adding one choice keeps routes, blocked list and seen keys equal to their specification over everything looked at so far. |
| Routing.AddCandidates | internal/router/router.go:173-198 | Exactly the approved models are looked at, in the pool's order, each on every key that may pay or marked as having none. |
| Routing.LookedAtIff | internal/router/router.go:200-231 | Without approved models exactly these are looked at: the pinned model, and every model the catalog or the configuration has for a provider with keys, each on every key that may pay. |
| Routing.ApprovedLookedAtIff | internal/router/router.go:173-193 | With approved models exactly those, each on every key that may pay, or marked as having none. |
| Routing.PinnedModelComesFirst | internal/router/router.go:200-207 | Without approved models, the first routes are the pinned model on those of its keys that may pay and can serve it, in their order, up to the cap. |
| Routing.PinnedProviderComesFirst | internal/router/router.go:381-403 | The pinned provider is the first, the configured one first or next, if they have keys. |
| Routing.PinnedKeyIsTheOnlyKey | internal/router/router.go:366-377 | Every route's key may pay for its provider, and is the pinned key if one is pinned. |
| Routing.OnlyApprovedModels | internal/router/router.go:171-198 | With approved models no route uses another model. |
| Routing.NoRouteMeansAllBlocked | internal/router/router.go:173-198 | With approved models and no route, every permitted model and key is listed as set aside. |
| Routing.EmptyPlanExplainsItself | internal/router/router.go:147-169 | If nothing is offered, everything looked at is listed as set aside. |
| Routing.SomeRouteIff | internal/router/router.go:147-169 | When different choices have different keys, there is a route if and only if some choice can serve. |
| Routing.AnyRouteWhateverTheLevel | internal/router/router.go:200-231 | Without approved models, whether there is any route does not depend on the level, if no provider or key number has a slash. |
| Routing.SecondLookIsFutile | internal/router/router.go:233-244 | So planning again one level lower, after finding nothing, offers nothing and sets nothing else aside. |
| Routing.TierItemsSameForEveryLevel | internal/router/router.go:208-231 | Another level changes the order in which models are looked at, never which ones. |
| Routing.PlainKeysSeparate | internal/router/router.go:148-148 | Choices without a slash in provider and key number share a key only if they are the same. |
| Routing.SlashesCollide | internal/router/router.go:148-148 | A slash in a provider's name would make two different choices share a key. |
| Routing.OrderProviders | internal/router/router.go:381-403 | Providers come pinned first, then configured, then known, then the rest. |
| Routing.FirstsAre | internal/router/router.go:381-403 | Exactly the named providers with keys are listed, each once. |
| GuestPath.ResolveGuestPath | internal/compute/rootfs.go:57-114 | Ends on every tree, however its links go round; never leaves the root on the way; a result exists, lies under the root and has no link on its way. |
| GuestPath.ResolveIsIdempotent | internal/compute/rootfs.go:57-114 | Resolving the result's own path from the root gives the result again. |
| GuestPath.WalkInTwoSteps | internal/compute/rootfs.go:71-108 | Walking one list of parts and then another, with one allowance of links, is walking both in a row. |
| GuestPath.FollowsLink | internal/compute/rootfs.go:98-107 | A link on the way leads to its target and on from there: an absolute one from the root, any other from the directory it is in. |
| GuestPath.FollowsLinkUp | internal/compute/rootfs.go:77-107 | A target that begins with ".." leads on from the directory above, and above the root is refused. |
| GuestPath.MissingIsMissing | internal/compute/rootfs.go:85-89 | A name that is not there is missing, whatever comes after it. |
| GuestPath.GivesUpAfterForty | internal/compute/rootfs.go:94-97 | A walk follows at most forty links, and gives up only when there is one more. |
| GuestPath.SelfLinkIsGivenUp | internal/compute/rootfs.go:94-97 | A link to itself ends in "too many links", wherever it is met. |
| GuestClean.WalksAgree | internal/compute/rootfs.go:71-107 | Over the same names, the program's walk agrees with that of a system whose own root this is, which follows targets as they are written and stays at the root when it would go above it, or is refused; as long as every link target has no ".." after a name, or is absolute and begins with ".." when cleaned. |
| GuestClean.ResolvesAsWritten | internal/compute/rootfs.go:57-114 | In such trees, a path without ".." after a name, or refused at once, is resolved as such a system resolves it if and only if it is not refused. |
| GuestClean.CleaningMayFindAnotherFile | internal/compute/rootfs.go:98-107 | For the path "bin/sh" over a link to "/l/../x", the file beside the link "l" is found instead of the one beside its target. |
| Undo.Service.RevertTurn | internal/projects/changes.go:161-229 | Reverted and skipped paths, as sorted lists without repetition, the reason given for the skipped ones, and the content of every file afterwards are those that each path's oldest listed row demands. |
| Undo.RevertIsExactIff | internal/projects/changes.go:40-104 | Whatever happened, a reverted path holds what its oldest listed row found, if and only if that was neither a file over 1 MiB that was then deleted nor a file that could not be read and was taken to be new; and it is reverted exactly if that row can be undone. |
| Undo.TurnIsUndoneIff | internal/projects/changes.go:161-229 | For a turn of up to 500 recorded changes: the exact condition, on a path's first change and what it found, under which undoing brings the path back. |
| Undo.TurnIsUndone | internal/projects/changes.go:161-229 | If the files changed could be read and are neither empty nor over 1 MiB, and only existing files are deleted, undoing the whole turn gives back the folder it found. |
| Undo.BigDeletedFileIsLost | internal/projects/changes.go:77-84 | If a deletion of a file over 1 MiB is recorded, the undo reports it as reverted, it comes back empty, and the diff shows nothing. |
| Undo.UnreadableFileIsRemoved | internal/projects/changes.go:40-59 | A small file that can be written but not read is recorded as new, and the undo removes it and reports it as reverted. |
| Undo.EmptyFileIsCalledTooLarge | internal/projects/changes.go:85-89 | An empty file that a turn wrote to stays changed after the undo, which says that its previous version was too large to keep. |
| Undo.LongTurnIsShown | internal/projects/changes.go:108-151 | A file written 201 times in a turn is taken back by the undo and still shown by a diff of the turn with the default limit. |
| Undo.RevertedAndSkippedPartition | internal/projects/changes.go:181-222 | Every selected path with a listed row is either reverted or skipped; every path that is not reverted keeps its content. |
| Undo.RevertedIsNotShown | internal/projects/changes.go:108-151 | After an undo, a diff shows no reverted path that can be read and whose oldest row is within the diff's own limit. |
| Undo.Service.Diff | internal/projects/changes.go:108-151 | For a turn, a path or the project: exactly the paths whose oldest listed content differs from what can be read there now, sorted, each with its action, a unified diff of the two texts and its counts. |
| Undo.NoDiffIff | internal/projects/changes.go:141-144 | A reported diff is empty, without counted lines, if and only if the texts are equal. |
| Undo.Service.FirstChanges | internal/projects/changes.go:175-178 | Overwriting while going from new to old leaves the oldest row of each path. |
| Undo.OldestIs | internal/store/projects.go:249-298 | Listing the newest rows asked for and taking the last for a path finds exactly its oldest listed row. |
| Undo.ListingHolds | internal/store/projects.go:249-298 | A listing holds as many as its limit allows, 200 unless between 1 and 500, of the rows of the turn and path asked for, each at its place counted from the newest. |
| Undo.RevertableMeansUndone | internal/projects/changes.go:61-104 | The flag kept with a row says exactly whether undoing it does anything. |
| Mcp.SignalledAtMostOnce | internal/mcp/transport.go:127-179 | Over any run a call is sent at most one answer or closed once, never both. |
| Mcp.AnswersReachTheirCall | internal/mcp/transport.go:164-177 | An answer reaches only the call with its number; a call told that the server is gone is told why. |
| Mcp.AnsweredWithTheFirst | internal/mcp/transport.go:164-177 | Over every run, a call is answered with exactly the first answer the server sent for it while it was pending. |
| Mcp.AnswerCanBeSent | internal/mcp/transport.go:170-177 | Whatever the server sends, the reader's send of an answer never meets a closed or full channel. |
| Mcp.NothingPendsOnADeadServer | internal/mcp/transport.go:127-140 | Once the reader is over it stays over and no call is pending again. |
| Mcp.DeadServerLeavesNobodyWaiting | internal/mcp/transport.go:192-234 | After that a waiting call has its answer or finds its channel closed, and a new call is refused. |
| Mcp.DeadMeansEveryoneWasTold | internal/mcp/transport.go:244-251 | The transport reports itself dead only after every pending call was told. |
| Mcp.FirstDeathIsKept | internal/mcp/transport.go:93-101 | The first reason for the server's death is never replaced. |
| Mcp.DeathHasItsCause | internal/mcp/transport.go:93-140 | The reason is that of whichever came first, the exit or the end of the output. |
| Mcp.StepKeepsInv | internal/mcp/transport.go:127-234 | Every region and channel operation keeps: a call that is not pending and not over has exactly one thing coming. |
| Mcp.Session.Perform | internal/mcp/transport.go:127-234 | Every step of a run is what the transport's regions and channel operations do, and keeps the invariant. |
| Mcp.StdioTransport.CloseAll | internal/mcp/transport.go:128-138 | Closes exactly the channels of the pending calls and empties the map, keeping an earlier reason. |
| TurnLoop.NextAttempt | internal/engine/turn.go:520-575 | What the next attempt leads to: an answer on the same route, the next route after an error that may be retried, or the end of the call. |
| TurnLoop.EveryAttemptCounts | internal/engine/turn.go:536-560 | Every attempt was answered, failed or cut short by the end of the turn's context. |
| TurnLoop.RoundsGrow | internal/engine/turn.go:429-436 | A round added to rounds without three equal ones in a row is at most the third of its kind. |
| ApprovalRuns.ChannelIsListedWhileListening | internal/engine/approvals.go:41-50 | A channel is in the map exactly while its turn listens: an answer that looks meanwhile finds it, and the map keeps nothing afterwards. |
| ApprovalRuns.ApprovedGoesOnIff | internal/engine/approvals.go:60-76 | Once its timer has fired, an approved request goes on if and only if the answer is on the channel by then. |
| Routing.PlanIsCapped | internal/router/router.go:122-169 | A plan has at most the asked number of routes, or six; with fewer, every choice that can serve and whose key no earlier one has is a route; without a level it is the standard plan. |
| Routing.RoutesHaveDifferentKeys | internal/router/router.go:147-169 | No two routes of a plan share a key. |
| Routing.EveryCandidateIsTried | internal/router/router.go:173-193 | Each approved model is looked at on each key that may pay for it, or as a model without a key. |
| Undo.FirstChangeIsTheOldest | internal/projects/changes.go:175-178 | In a turn of up to 500 changes the undo goes back to a path's first change, which found what the turn found. |
| Undo.ReplayKeepsRows | internal/projects/changes.go:61-104 | Every row of the log is the record of what its path held at that moment. |
| Schedule.AnswersBeforeNowIff | internal/tasks/schedule.go:92-168 | An answer lies before now if and only if it is not strict and the one time of the task is over or now is past the start of a minute its cron expression names, or an unchecked hourly minute is so far back that even an hour later it is over. |
| Schedule.SlotsAreNeverBeforeNow | internal/tasks/schedule.go:118-148 | With an hourly minute as creation demands it, hourly, daily and weekly answers are never before now. |
| Schedule.FirstRunIsRecent | internal/tasks/scheduler.go:62-72 | No task is created that was to run more than a minute ago, and only one-time and cron tasks are to run before now. |
| CronParse.ParsesOnce | internal/tasks/schedule.go:215-249 | An accepted expression has one meaning. |
| CronHorizon.NothingUntil2104 | internal/tasks/schedule.go:304-327 | Between the leap days of 2096 and 2104 an expression that names no other day of any year names no minute. |
| LeapDay.ExpressionMeansSpec | internal/tasks/schedule.go:215-301 | "0 0 29 2 *" is accepted and means midnight of 29 February. |
| LeapDay.NoNextRunThenOne | internal/tasks/schedule.go:149-162 | Late on 28 February 2099 that schedule has no next run, and two hours later it has one. |
| LeapDay.CanBeCreated | internal/tasks/scheduler.go:62-72 | On the day before 29 February 2096 a task with this schedule is accepted, and is first due on that day. |
| LeaseRuns.ExclusiveIff | internal/tasks/scheduler.go:141-200 | The same from every state in which each execution holds its lease. |
| LeaseRuns.InTimeNeverReclaims | internal/tasks/scheduler.go:141-200 | If every execution ends before its lease, no claim takes such a task. |
| LeaseRuns.RevivesIff | internal/store/tasks.go:179-205 | A task that is over becomes active again in a step if and only if the step finishes an execution of it, after it completed, with a next run. |
| LeaseRuns.StaysOverIff | internal/store/tasks.go:179-205 | Over every run a task that is over stays so if and only if no execution of it finishes like that. |
| LeaseRuns.NoReclaimNoRevival | internal/tasks/scheduler.go:141-200 | Nothing is revived as long as no claim takes a task whose execution has outlived its lease. |
| LeaseRuns.NextRuns | internal/tasks/scheduler.go:178-190 | The two next runs of that schedule, as a finishing execution would ask for them. |
| Routing.ExplainEmpty | internal/router/router.go:333-345 | The explanation of an empty plan names at most the first three choices set aside, with their reasons. |
| GuestClean.PathIsHarmlessIff | internal/compute/rootfs.go:57-114 | In every tree with harmless links a path is refused or resolved as such a system resolves it, if and only if it has no ".." after a name, or begins with ".." when cleaned. |
| GuestClean.TargetIsHarmlessIff | internal/compute/rootfs.go:98-107 | With one link target in trees whose other links are harmless, harmless paths are all refused or resolved as such a system resolves them, if and only if the target has no ".." after a name, or is absolute and begins with ".." when cleaned. |
| GuestClean.NeverRefused | internal/compute/rootfs.go:77-83 | A system whose own root this is never refuses to go up, so a refusal is a difference. |
| Undo.WritesRevertExactlyIff | internal/projects/changes.go:161-229 | As long as nothing is recorded but writes, which is all that tools record, a reverted path holds exactly what its oldest listed row found, whatever its size, if and only if that was not a file that could not be read. |
| Undo.TurnOfWritesIsUndone | internal/projects/changes.go:161-229 | A turn of up to 500 writes is undone whole if the files it changed could be read and are neither empty nor over 1 MiB. |
| Undo.RevertedIsShownIff | internal/projects/changes.go:108-151 | After an undo, a diff of the turn shows a reverted path if and only if its limit reaches a row of the path, the oldest of which kept another text than is read there now. |

## Left out

- Databases, JSON, HTTP, processes and file system calls: a statement or transaction is one atomic step, a
  table is a map, a folder is a map from paths to contents; a failing statement is a step of its own where
  the source handles it.
- Real time zones and daylight saving, and offsets that are not whole minutes: one fixed offset.
- Text beyond ASCII in white space and letter case; a character stands for one byte.
- Schedule.Next: the date-time of a one-time task is given as the parsed instant, and the zone is known.
- Diff.DiffLines: nothing is said about which of several smallest scripts is chosen beyond deletions
  coming first.
- Patch.Unified: past the size limits only the summary counts and the cut text are stated; no diff can be
  applied there.
- LeaseRuns.OverrunBreaksBoth: the clock counts whole microseconds, and stands still while a task is created.
- ApprovalRuns.AllowedOnlyByAPerson: says nothing about how soon anybody is told; whether an approved turn
  proceeds is not kept by the code.
- TurnLoop.RunTurn: messages, streaming and the note added after a second equal round are not modelled;
  which provider errors may be retried (internal/router/router.go:435-478) is part of the world. It assumes
  the SHA-256 digest of different written rounds to differ, by keeping the written round itself.
- Routing.MakePlan: keys, budgets, health, the catalog, the texts saying why a choice is unusable and display
  names are fixed during a plan; the price of a route and the end of a cooldown are not modelled. The error
  result is never used (internal/router/router.go:348-358).
- Routing.AnyRouteWhateverTheLevel: assumes providers and key numbers without a slash, which is what the
  registry and the store give out (internal/llm/llm.go:227-229, internal/store/store.go:117-121).
- Ranking.TierIsTheStableSort: prices are real numbers, so infinities and not-a-number are excluded; the
  library's sorting algorithm is represented by the one list it may return.
- GuestClean.ResolvesAsWritten: the root is not the host's own top directory.
- Undo.Service.RevertTurn: file modes are not modelled, and which files cannot be resolved, read, written or
  removed is a parameter; all changes are in one project.
- Mcp.AnswerCanBeSent: requests from the server to the client are not modelled; the reader answers them
  itself (internal/mcp/transport.go:153-163) and may have to wait for the server to read that.
- Mcp.SignalledAtMostOnce: the cancellation notice and the HTTP transport are not modelled.
- Turns.WaiterIsToldExactlyOnce: what a turn does between its start and its end, its title and its
  published events are not modelled.
- Classification of provider errors, cost tables, prompts, configuration, secrets, the desktop shell, the
  command line and the legacy Python package.
