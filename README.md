# Productivity dashboard: record store and focus timer

A Dafny model of the two pieces of logic inside the dashboard's `script.js`.

**The record store.** Tasks and projects are kept in the browser's local storage under the keys `tasks`, `projects` and `pomodoroSessions`. An absent or `null` entry falls back to fixed sample data. The model covers:

- the event handlers that read the store, change one record and write it back: add a task or project, tick off or star a task, delete a task, edit a project's title or description, flip its status, attach files;
- the read-only queries the dashboard runs over the records: the to-do filter, the dashboard's short list, the counters and productivity score, and the file-type icon.

**The focus timer.** A 25-minute countdown with start, pause, reset and preset buttons. A one-second tick counts a finished session, saves it and switches to a 5-minute break.

Modules:

- `Text`: the JavaScript string functions the code relies on. These are `trim` (with ECMAScript's white-space set), `split('.').pop()`, integer `toString` and `padStart`.
- `Seqs`: `Array.prototype.filter` and `findIndex` on sequences, with the subsequence and multiset facts that describe a filter.
- `Records`: tasks, projects and the sample data. Also the pure queries and the by-id update functions the handlers apply, with lemmas relating them.
- `Store`: the store as a map from key to a typed value. The class `LocalStorage` holds that map in a field, and its methods are the handlers' read-modify-write cycles, each proved against the `Records` functions.
- `Timer`: the class `FocusTimer`, holding the page's timer variables, whose methods are the timer buttons and the tick. Also the `MM:SS` display and the proof that it reads back as the number of seconds.
- `App`: `clearAllData`, which touches both the store and the timer.

The stored JSON is modelled by its decoded value. `Value` is `Null`, a task list, a project list or a session count. An invariant (`WellTyped`) says each key holds only its own kind of value.

Two things are passed in as parameters:

- the new record's id, which the code takes from the clock;
- the text currently shown in the page, which title and description edits and status clicks read from the DOM.

Two behaviours of the code worth knowing:

- **Malformed stored data.** `JSON.parse` at `script.js:334` and `script.js:450` is called without a `try`, so a malformed stored value throws. The model holds decoded values and has no such state (see Left out).
- **Dashboard fallback list.** With no open starred task, `script.js:631-632` shows the first three open tasks. All of them are then unstarred. `Records.DashboardTasks` states this rule.

## Model

| member | source | states |
|---|---|---|
| Text.Trim | script.js:494 | The trimmed text is the contiguous middle of the input. Everything cut from either end is ECMAScript white space, and the result neither starts nor ends with white space. It is empty exactly when the whole input is white space. |
| Text.IsBlank | script.js:496 | The test `!taskText` on the trimmed input: blank exactly when every character is white space. |
| Text.TrimIdempotent | script.js:494 | Trimming an already trimmed text changes nothing. |
| Text.LastSegment | script.js:701 | `split(sep).pop()` is a suffix of the input without the separator. When it is shorter than the input, the character before it is the separator. |
| Text.LastSegmentAfterSeparator | script.js:701 | Whatever comes before the last separator does not affect the last segment. |
| Text.NatToDecimal | script.js:926 | `toString` of a natural number gives decimal digits with no leading zero, reading back as the number. There is one digit below 10 and at most two below 100. |
| Text.IntToDecimal | script.js:926 | `toString` of an integer gives the non-empty decimal digits of its magnitude with no leading zero, reading back as the magnitude. A negative number is preceded by `-`. |
| Text.PadStart | script.js:926 | `padStart(width, fill)` reaches the width (or keeps a longer text), ends with the original text and is filled with `fill` before it. |
| Text.LeadingZerosKeepValue | script.js:926 | Zeros put in front of a digit string do not change its value. |
| Seqs.Filter | script.js:340-342 | `filter` keeps, in order, exactly the elements that pass, each as often as it occurs in the input. |
| Seqs.FindIndex | script.js:588 | `findIndex` gives the first index whose element passes, or -1 exactly when none does. |
| Seqs.FirstMatches | script.js:628 | `filter(p).slice(0, n)` is a subsequence of the input of length min(n, number of matches). It agrees with the filter position by position. |
| Seqs.SubsequencePrefix | script.js:628 | A prefix of a subsequence is still a subsequence. |
| Seqs.FilterPartition | script.js:340-341 | Filtering by a predicate and by its negation splits the input in two. |
| Seqs.FilterAppend | script.js:613 | Filtering distributes over concatenation. |
| Seqs.FilterKeepsAll | script.js:613 | A filter every element passes returns the input. |
| Seqs.FilterSizeAfterReplace | script.js:591 | Replacing one element changes a filter's count only by what the old and new element contribute. |
| Records.Flip | script.js:838 | The status a click sets is always the other one. |
| Records.FilterTasks | script.js:480-491 | Modes `active`, `completed` and `priority` give the order-preserving selection of exactly the open, finished or starred tasks. Any other mode gives the list unchanged. |
| Records.DashboardTasks | script.js:628-640 | The short list holds at most five open tasks, in list order. If some open task is starred, it is the first min(5, n) open starred tasks. Otherwise it is the first min(3, n) open tasks. |
| Records.RoundedPercent | script.js:346 | `Math.round(part / total * 100)` as exact integer rounding half up. It is 0 when total is 0, and at most 100 when part does not exceed total. |
| Records.ComputeCounters | script.js:340-346 | The open, completed and active counts are the sizes of the filters by `!completed`, `completed` and `status === 'active'`. The open and completed counts add up to the number of tasks. Each count is zero exactly when every task is on the other side. The active-project count is at most the number of projects and is zero exactly when none is active. The score is the rounded completed share, lies in 0..100, and is 0 with no tasks. |
| Records.NonEmptyFilter | script.js:628-631 | A filter is non-empty exactly when some element passes. This is the test `priorityTasks.length === 0`. |
| Records.TwoOfThreeScores67 | script.js:340-346 | One open task, two completed tasks and one active project give the counters 1, 2, 1 and a score of 67. |
| Records.Extension | script.js:701 | The extension is the part of the name after its last dot: a suffix without a dot, preceded by a dot when it is shorter than the name. |
| Records.IconFor | script.js:701-707 | Each icon is chosen exactly when the extension is in its list: `pdf`; `doc`/`docx`; `xls`/`xlsx`; `jpg`/`png`/`gif`. Any other extension gets the generic icon. |
| Records.IconByLastDot | script.js:756-762 | Only the text after the last dot decides the icon. |
| Records.PdfName | script.js:704 | `design-mockup.pdf` gets the PDF icon. |
| Records.SpreadsheetName | script.js:706 | `archive.tar.xlsx` gets the spreadsheet icon: only the last dot counts. |
| Records.UpperCaseExtension | script.js:704 | Matching is case-sensitive: `scan.PDF` gets the generic icon. |
| Records.LongerExtension | script.js:707 | Matching is exact: `photo.jpeg` gets the generic icon. |
| Records.DotlessName | script.js:701 | A name without a dot is its own extension: a file named `gif` gets the image icon. |
| Records.TaskIndex | script.js:588 | The first position of a task with the id, or -1 exactly when there is none. |
| Records.ProjectIndex | script.js:748 | The first position of a project with the id, or -1 exactly when there is none. |
| Records.UpdateFound | script.js:588-592 | The shared by-id step: with index -1 the list is unchanged; otherwise only the element at the found index is replaced, by the edit applied to it. |
| Records.SetCompleted | script.js:588-591 | Only the first task with the id changes, and only its `completed` field. With no such task the list is unchanged. |
| Records.SetPriority | script.js:601-604 | Only the first task with the id changes, and only its `priority` field. With no such task the list is unchanged. |
| Records.WithoutTask | script.js:613 | No task with the id remains. The others keep their order and their number of occurrences. |
| Records.SetTitle | script.js:796-798 | Only the first project with the id changes, and only its title. With no such project the list is unchanged. |
| Records.SetDescription | script.js:822-824 | Only the first project with the id changes, and only its description. With no such project the list is unchanged. |
| Records.SetStatus | script.js:844-846 | Only the first project with the id changes, and only its status. With no such project the list is unchanged. |
| Records.AppendFile | script.js:748-751 | Only the first project with the id changes: the file name goes at the end of its file list. With no such project the list is unchanged. |
| Records.Edited | script.js:791-792 | An edit that is blank once trimmed keeps the previous text. Otherwise the stored text is the trimmed input, which is itself non-blank and already trimmed. |
| Records.SameProjectIdsSameIndex | script.js:748 | Updates that keep every project's id keep every lookup by id. |
| Records.StatusToggleTwice | script.js:838-848 | Clicking a project's status twice restores the project list. |
| Records.DeleteUndoesAdd | script.js:611-614 | Deleting the id of a just-added task whose id was new gives back the list before the add. |
| Records.CompletingOpenTaskCountsOnce | script.js:586-593 | Ticking off an open task raises the completed count by exactly one. |
| Store.LoadTasks | script.js:334 | `JSON.parse(getItem('tasks')) \|\| sampleTasks`: an absent or `null` entry gives the sample tasks; a stored list, even an empty one, is used as it is. The same read is at script.js:450, 512 and 587. |
| Store.LoadProjects | script.js:337 | The same for `projects`, falling back to the sample projects. The same read is at script.js:653, 683 and 747. |
| Store.SavedSessions | script.js:1016-1020 | The restored session count: the saved count, or 0 when none is saved. |
| Store.EmptyStoreShowsSamples | script.js:64-94 | With nothing (or only `null`) stored, the page shows the five sample tasks, the three sample projects and no sessions. |
| Store.TasksRoundTrip | script.js:512-514 | Saving a task list and loading it gives that list back, even when it is empty. The projects and session count are untouched. |
| Store.ProjectsRoundTrip | script.js:683-685 | Saving a project list and loading it gives that list back. The tasks and session count are untouched. |
| Store.AttachOne | script.js:747-752 | One pass of the upload loop: the projects loaded afterwards are `AppendFile` of those loaded before. Only the `projects` key can change, and nothing is written when no project has the id. |
| Store.AttachAll | script.js:743-753 | The upload loop keeps the store well typed. |
| Store.WithFiles | script.js:751 | Appending files to one project keeps every id and the number of projects. |
| Store.WithFilesTwice | script.js:751 | Appending files in two steps is appending them in one. |
| Store.AttachOneMissing | script.js:750 | A pass of the upload loop changes nothing when no project has the id. |
| Store.AttachOneFound | script.js:748-752 | A pass of the upload loop saves the project list with the file appended to the found project. |
| Store.AttachAllSnoc | script.js:743 | The loop over one more file is one more pass. |
| Store.AttachStep | script.js:747-752 | One more pass after `init` has been attached gives `init` followed by the new file. |
| Store.AttachAllAppends | script.js:743-753 | Uploading several files to an unknown project changes nothing. Otherwise all the names are appended, in order, to the first project with the id, and nothing else in the store changes. |
| Store.LocalStorage.constructor | script.js:334 | Stands for the browser's stored contents at page load: any well-typed contents, which every later read starts from. |
| Store.LocalStorage.AddNewTask | script.js:493-514 | Blank input is refused and writes nothing. Otherwise exactly one open, unstarred task with the trimmed text is appended to the loaded list and saved. The projects are untouched. |
| Store.LocalStorage.AddNewProject | script.js:663-685 | Blank input is refused and writes nothing. Otherwise exactly one active project with the trimmed title, the stock description and no files is appended and saved. The tasks are untouched. |
| Store.LocalStorage.UpdateTaskStatus | script.js:586-597 | Nothing is written when no task has the id. Otherwise the task list, with `completed` set on the first match, is saved. |
| Store.LocalStorage.UpdateTaskPriority | script.js:599-609 | Nothing is written when no task has the id. Otherwise the task list, with `priority` set on the first match, is saved. |
| Store.LocalStorage.DeleteTask | script.js:611-614 | The task list without every task carrying the id is saved, found or not. |
| Store.LocalStorage.EditProjectTitle | script.js:790-800 | Nothing is written when no project has the id. Otherwise the first match gets the edited title (the trimmed input, or the title shown before when blank), and the list is saved. |
| Store.LocalStorage.EditProjectDescription | script.js:816-826 | The same as the title edit, for the description. |
| Store.LocalStorage.ToggleProjectStatus | script.js:837-848 | The new status differs from the one shown. It is saved on the first project with the id, and nothing is written when there is none. |
| Store.LocalStorage.AttachFile | script.js:744-753 | One loop pass (reload, find the project, push the name, save) has exactly the effect of `AttachOne`. |
| Store.LocalStorage.AttachFiles | script.js:740-753 | The loop over the selected files has the net effect of `AttachAllAppends`. An unknown project leaves the store unchanged. Otherwise the names are appended in order to that project's files. |
| Timer.SecondsField | script.js:925 | JavaScript's `seconds % 60`: in 0..59 for a non-negative count, in -59..0 for a negative one, and always congruent to the count. |
| Timer.Display | script.js:923-927 | `updateTimerDisplay`'s text is at least five characters. For a non-negative count it ends in a colon followed by the seconds field `seconds % 60` padded to two digits. `Timer.DisplayReadsBack` gives the whole read-back. |
| Timer.PaddedDecimal | script.js:926 | A two-place padded number is all digits, keeps its value, and is exactly two characters below 100. |
| Timer.SplitAtColon | script.js:926 | The minute and second fields can be cut back out of the `MM:SS` text at the colon. |
| Timer.DisplayFields | script.js:924-926 | For a non-negative count the display is the padded minutes, a colon and the padded seconds. |
| Timer.DisplayReadsBack | script.js:923-927 | For any non-negative count the display has the form digits, colon, two digits, with the seconds field below 60. Minutes times 60 plus seconds gives back the count. The display is exactly five characters below 100 minutes. |
| Timer.WorkDisplay | script.js:58 | A full period shows `25:00`. |
| Timer.BreakDisplay | script.js:890-891 | A break shows `05:00`. |
| Timer.MinusOneDisplay | script.js:868-869 | The count of -1, shown for an instant when a zero-minute period ends, reads `-1:-1`. |
| Timer.FocusTimer.constructor | script.js:57-60 | The timer starts stopped at 25 minutes, with the saved session count or 0 (see `script.js:1016-1020`). |
| Timer.FocusTimer.Start | script.js:860-865 | Afterwards the timer is running. The count and the sessions are unchanged, whether it was already running or not. |
| Timer.FocusTimer.Tick | script.js:867-892 | A tick lowers the count by one and changes nothing else while it stays positive. Otherwise the timer stops, the sessions go up by exactly one, that number is saved, and a 5-minute break is set. Afterwards the count is always positive. |
| Timer.FocusTimer.Pause | script.js:896-903 | Afterwards the timer is stopped, with the same count and sessions. |
| Timer.FocusTimer.Reset | script.js:905-912 | Afterwards the timer is stopped at 1500 seconds, with the same sessions. |
| Timer.FocusTimer.SetTimer | script.js:914-921 | Afterwards the timer is stopped at `minutes * 60` seconds, with the same sessions. |
| App.ClearAllData | script.js:990-1009 | Declining changes nothing. Confirming empties the store, so the sample tasks and projects come back. It also puts the session count to 0 and resets the timer. |

## Left out

- All DOM work: building task and project cards, tabs, the sidebar, touch gestures and the mobile navigation. The text a handler reads back from the page is a parameter: the title or description shown before an edit, and the status shown on a badge.
- The calendar and the date header. They depend on JavaScript's `Date` and locale formatting.
- The motivation quotes, which depend on `Math.random`.
- `alert`, `navigator.vibrate` and the confirmation dialog. `confirm`'s answer is the `confirmed` parameter of `App.ClearAllData`.
- `setInterval`/`clearInterval`. The tick is an explicit method that may only be called while the timer runs, which is when the interval exists. The single-interval guarantee belongs to the browser's scheduler and is not modelled.
- JSON encoding and decoding. The store holds decoded values. A malformed stored string, which makes the code throw, has no counterpart in the model.
- `parseInt` of the saved session count and of a preset's minutes. Both are taken as natural numbers, so `NaN` is not modelled.
- `Date.now()` ids. The new id is a parameter, so two records created in the same millisecond are not modelled either.
- The shared sample arrays: when the code falls back to `sampleTasks` or `sampleProjects` and then pushes or assigns, it changes those shared arrays in place. A later fallback in the same page (for instance after `clearAllData`) then sees the changed seed. The model keeps the seed data constant.
- Records.RoundedPercent: exact rational arithmetic. `Math.round` on the floating-point quotient could differ only where the floating-point product lands on the other side of a .5 boundary, which is not modelled.
- Concurrent pages writing the same storage keys (last write wins) are not modelled; every handler is one atomic read-modify-write.
- The re-rendering every handler triggers (`loadTodoList`, `updateDashboardTodoList`, `updateDashboardCounters`) is a pure read. It is modelled by the query functions, not as a step of each method.
