# ElevateMe core, modelled in Dafny

ElevateMe is a personal productivity app with four parts:

- a habit tracker, where each habit has a streak, a "done today" flag and the day it was last completed;
- a journal, where each entry carries a mood;
- a daily timetable of "HH:MM" slots;
- an insights view that draws charts from all of this.

A data manager exports the locally stored collections to a versioned document and imports such a document back.

This project models the logic of those five components and proves what each one promises:

- `common.dfy` (module `Common`) holds shared pieces:
  - an `Option` type;
  - JavaScript's white space and `trim`;
  - the "drop every record with this id" filter that every list view uses.
- `habits.dfy` (module `Habits`) holds three things:
  - the toggle rule for one habit, as the code writes it;
  - the id-based update of the list;
  - the `HabitTracker` class, whose `habits` field is replaced by add, toggle and delete.
- `journal.dfy` (module `Journal`) holds the `Journal` class (`entries`, `selectedMood`), the mood-button toggle and "today's entry".
- `timetable.dfy` (module `Timetable`) holds three things:
  - the lexicographic order on times;
  - the sort by time, specified as sorted and a permutation, with each slot placed after the slots of equal time already placed;
  - the `Timetable` class, with add, remove and the current slot.
- `insights.dfy` (module `Insights`) models `loadInsights`:
  - the Monday that starts the current week;
  - each habit's normalised run and its backward walk, with `completedCounts` filled in place in an array;
  - the rounded percentages;
  - the mood tally over the last seven days, built by a loop.
- `data_manager.dfy` (module `DataManager`) covers export and import:
  - a parsed-JSON value type with JavaScript truthiness;
  - export and import over a key-value store;
  - the `LocalStore` class, whose import writes the three keys in turn after the validity check.

Days are integer day numbers. Day 0 is Thursday 1 January 1970, so the day of the week is `(day + 4) % 7`, with 0 for Sunday as `getDay` counts. A time of day is an "HH:MM" string, compared character by character. The current day, the current time of day and new record ids are parameters.

Completing a habit adds one to its streak whenever its last completion was not today, even after a gap of several days; nothing checks that the previous completion was yesterday. `Habits.Toggle` models this rule and `Habits.GapDoesNotReset` states it.

## Model

| member | source | states |
|---|---|---|
| Common.IsWhitespace | src/components/HabitTracker.tsx:69 | the characters `trim` removes: the ECMAScript white space and line terminators |
| Common.IsBlank | src/components/HabitTracker.tsx:69 | a text that is only white space, which is what `trim() === ''` and `!text.trim()` test |
| Common.Trim | src/components/HabitTracker.tsx:69 | the trimmed text is the input with only white space cut from both ends; it neither starts nor ends with white space, and is empty exactly when the input is only white space |
| Common.TrimIdempotent | src/components/HabitTracker.tsx:83 | trimming an already trimmed text changes nothing |
| Common.WithoutKey | src/components/HabitTracker.tsx:224 | every kept record comes from the input and has another id; every record with another id is kept; with no record of that id the list is unchanged |
| Common.WithoutKeyConcat | src/components/Journal.tsx:75 | the filter keeps the relative order of what it keeps (filtering distributes over concatenation) |
| Habits.NewHabit | src/components/HabitTracker.tsx:80-86 | a new habit has the given id, the trimmed name, streak 0, is not done and has no completion date |
| Habits.Toggle | src/components/HabitTracker.tsx:137-161 | id and name kept, "done today" flipped, date set to today when completed and cleared otherwise; the streak gains one when completing unless already counted today, and loses one (never below 0) when un-completing only if counted today |
| Habits.NewHabitConsistent | src/components/HabitTracker.tsx:80-86 | a new habit satisfies the habit invariant (streak not negative, date present exactly when done, done implies streak at least 1) |
| Habits.ToggleKeepsConsistent | src/components/HabitTracker.tsx:139-158 | toggling a consistent habit on any day gives a consistent habit |
| Habits.CompleteThenUncomplete | src/components/HabitTracker.tsx:143-151 | completing and then un-completing on the same day restores the streak and the flag |
| Habits.UncompleteThenComplete | src/components/HabitTracker.tsx:143-157 | un-completing and then re-completing on the completion day restores the habit exactly |
| Habits.GapDoesNotReset | src/components/HabitTracker.tsx:143-146 | completing after a gap of any length still adds one to the streak and records today |
| Habits.ToggleOnDays | src/components/HabitTracker.tsx:137-161 | a sequence of toggles keeps the habit's id and name |
| Habits.StreakNeverNegative | src/components/HabitTracker.tsx:142-151 | the streak stays non-negative across any sequence of toggles on any days |
| Habits.ConsistentAcrossToggles | src/components/HabitTracker.tsx:139-158 | the habit invariant survives any sequence of toggles |
| Habits.ToggleById | src/components/HabitTracker.tsx:137-161 | the length and order are kept, every habit with the id is toggled, every other is unchanged, and an unknown id changes nothing |
| Habits.AppendKeepsConsistent | src/components/HabitTracker.tsx:87 | appending a new habit keeps every habit of the list consistent |
| Habits.ToggleByIdKeepsConsistent | src/components/HabitTracker.tsx:137-161 | toggling by id keeps every habit of the list consistent |
| Habits.DeleteKeepsConsistent | src/components/HabitTracker.tsx:224 | deleting by id keeps every remaining habit consistent |
| Habits.HabitTracker.constructor | src/components/HabitTracker.tsx:27-34 | the list starts as the saved list |
| Habits.HabitTracker.AddHabit | src/components/HabitTracker.tsx:68-93 | refused, with the list unchanged, exactly when the name is only white space; otherwise the new habit is appended; the invariant is kept |
| Habits.HabitTracker.ToggleHabit | src/components/HabitTracker.tsx:130-161 | the list becomes the id-based toggle of the old list (an unknown id leaves it unchanged); the invariant is kept |
| Habits.HabitTracker.DeleteHabit | src/components/HabitTracker.tsx:221-224 | the list becomes the old list without the habits of that id; the invariant is kept |
| Journal.NextMood | src/components/Journal.tsx:112 | the clicked mood becomes selected exactly when it was not the selected one; otherwise the selection is cleared |
| Journal.FirstOnDay | src/components/Journal.tsx:89 | the position found holds an entry of that day and no earlier entry is of that day; nothing is found exactly when no entry is of that day |
| Journal.Journal.constructor | src/components/Journal.tsx:31-36 | the entries start as the saved list with no mood selected |
| Journal.Journal.AddEntry | src/components/Journal.tsx:42-72 | refused, changing nothing, exactly when the text is only white space; otherwise the entry with the trimmed text, today's date and the selected mood goes in front, the selection is cleared, and it becomes today's entry |
| Journal.Journal.RemoveEntry | src/components/Journal.tsx:74-80 | the entries become the old ones without those of that id, in order; the mood selection is unchanged |
| Journal.Journal.SelectMood | src/components/Journal.tsx:112 | the selection follows the mood-button rule; entries are unchanged |
| Journal.Journal.TodaysEntry | src/components/Journal.tsx:82-90 | the first entry dated today, or nothing exactly when no entry is dated today |
| Timetable.TimeLePrefix | src/components/TimetableCreator.tsx:73 | the order `<=` and `localeCompare` use on times puts a text no later than any text it begins |
| Timetable.TimeLeFirstDifference | src/components/TimetableCreator.tsx:73 | past a common beginning, the first differing character decides the order of two times |
| Timetable.TimeLeAntisymmetric | src/components/TimetableCreator.tsx:48 | two times each no later than the other are equal |
| Timetable.TimeLeTotal | src/components/TimetableCreator.tsx:48 | any two times are comparable |
| Timetable.TimeLeTransitive | src/components/TimetableCreator.tsx:48 | the order on times is transitive |
| Timetable.Insert | src/components/TimetableCreator.tsx:48 | inserting into a sorted list gives a sorted list holding the old slots and the new one |
| Timetable.InsertPlacement | src/components/TimetableCreator.tsx:48 | the new slot goes after every slot not later than it and before every later one, the old slots keeping their order, so among equal times it comes last |
| Timetable.SortByTime | src/components/TimetableCreator.tsx:48 | the result is sorted by time and is a permutation of the input |
| Timetable.InsertLast | src/components/TimetableCreator.tsx:48 | a slot no earlier than all others is placed last |
| Timetable.SortSortedUnchanged | src/components/TimetableCreator.tsx:48 | sorting a list that is already sorted leaves it exactly as it is |
| Timetable.WithoutKeyKeepsSorted | src/components/TimetableCreator.tsx:60 | removing slots by id keeps the list sorted |
| Timetable.FirstStarted | src/components/TimetableCreator.tsx:71-74 | the first slot in list order whose time is not after now; nothing exactly when every slot is later |
| Timetable.FirstStartedOnSorted | src/components/TimetableCreator.tsx:67-75 | on a sorted list the first-match search can only answer with the first slot |
| Timetable.LastStarted | src/components/TimetableCreator.tsx:67-75 | the last slot in list order whose time is not after now; nothing exactly when every slot is later |
| Timetable.LastStartedIsLatest | src/components/TimetableCreator.tsx:67-75 | on a sorted list every slot that has started starts no later than the one found |
| Timetable.CurrentSlotDiscrepancy | src/components/TimetableCreator.tsx:67-75 | for slots at 08:00 and 14:00 at 15:00, the search as written answers 08:00 while 14:00 is in progress |
| Timetable.Timetable.constructor | src/components/TimetableCreator.tsx:21-26 | the slots start as the saved list |
| Timetable.Timetable.AddTimeSlot | src/components/TimetableCreator.tsx:32-57 | refused, changing nothing, exactly when the time or the activity is only white space; otherwise the list is the sorted old list plus the slot (time as given, activity trimmed): sorted, a permutation, one longer |
| Timetable.Timetable.RemoveTimeSlot | src/components/TimetableCreator.tsx:59-65 | the slots become the old ones without those of that id, and stay sorted |
| Timetable.Timetable.CurrentTimeSlot | src/components/TimetableCreator.tsx:67-75 | the first slot in list order whose time is not after now (every earlier slot starts later than now), or nothing exactly when every slot starts later |
| Insights.DayOfWeek | src/components/Insights.tsx:64 | the day of the week lies in 0..6 |
| Insights.MondayOffset | src/components/Insights.tsx:65 | the offset lies in 0..6 and stepping back by it from the day of the week lands on Monday |
| Insights.WeekStart | src/components/Insights.tsx:63-75 | the first of the week's days is a Monday, and today lies within the seven days from it |
| Insights.Normalise | src/components/Insights.tsx:94-110 | done-but-dated-earlier becomes done today with a streak of at least 1; un-ticked today becomes last done yesterday with one day less (never below 0); otherwise unchanged; afterwards the last day is today exactly when the habit is done |
| Insights.Hits | src/components/Insights.tsx:114-124 | walking a run back from its last day counts a day once if it lies in the run and zero times otherwise |
| Insights.Contribution | src/components/Insights.tsx:93-124 | a habit adds exactly 1 to each day of its normalised run and 0 to every other day |
| Insights.DoneTodayCountsToday | src/components/Insights.tsx:99-104 | a habit marked done counts for today |
| Insights.NotDoneNeverCountsToday | src/components/Insights.tsx:105-110 | a habit not marked done (with no future date) never counts for today |
| Insights.UntickedTodayEndsYesterday | src/components/Insights.tsx:105-110 | a habit un-ticked today counts as a run ending yesterday, one day shorter |
| Insights.NoRunNoContribution | src/components/Insights.tsx:112 | a habit without a date or without a positive normalised streak adds nothing to any day |
| Insights.ThreeDayRunEndingWednesday | src/components/Insights.tsx:114-124 | a streak of 3 ending on this week's Wednesday counts once for Monday to Wednesday and never for Thursday to Sunday |
| Insights.WeekCountStep | src/components/Insights.tsx:93-125 | counting one more habit adds exactly its contribution to the count of every day |
| Insights.AddRun | src/components/Insights.tsx:114-123 | the walk back from the last day adds one to each day of the week that the run covers and leaves the other days as they were |
| Insights.WeekCount | src/components/Insights.tsx:93-125 | the count of a day never exceeds the number of habits |
| Insights.CompletedCounts | src/components/Insights.tsx:87-125 | exactly 7 counts; each is the number of habits counted on that day of the week, between 0 and the number of habits |
| Insights.RoundingBounds | src/components/Insights.tsx:133 | the rounded ratio lies within one half of the exact percentage and in 0..100 |
| Insights.Percent | src/components/Insights.tsx:133 | 0 when there are no habits; otherwise the whole percentage nearest the exact ratio (halves up), within 0..100 |
| Insights.WeeklyHabits | src/components/Insights.tsx:63-135 | seven days from this week's Monday, each with its count, the number of habits and its percentage in 0..100 |
| Insights.InWindow | src/components/Insights.tsx:142-148 | the seven days up to and including today |
| Insights.InWindowAsWritten | src/components/Insights.tsx:142-148 | the instant comparison of the code: an entry's day start between now minus six days and now; within a day's time it never admits a day outside the seven-day window |
| Insights.WindowAsWrittenDropsOldestDay | src/components/Insights.tsx:142-148 | except at midnight, the window test as written rejects entries of the oldest of the seven days |
| Insights.WindowAsWrittenAgreesElsewhere | src/components/Insights.tsx:142-148 | on every other day the window test as written agrees with the seven-day window |
| Insights.Occurrences | src/components/Insights.tsx:145-155 | the entries without a mood are never counted, and no mood is counted more often than there are entries |
| Insights.Bump | src/components/Insights.tsx:153 | adding one occurrence of a mood raises its count by one (adding it at the end with count 1 exactly when it was absent); other counts and the order are unchanged and the total grows by one |
| Insights.TallyStep | src/components/Insights.tsx:151-155 | handling one more entry keeps the chart equal to the tally of the entries handled so far |
| Insights.MoodChart | src/components/Insights.tsx:141-161 | each mood appears once, never empty, with a count equal to the number of its entries in the last seven days (always positive); every such mood appears; the counts sum to the number of entries with a mood in the window |
| DataManager.Truthy | src/components/DataManager.tsx:61 | JavaScript truthiness: every value but undefined, null, false, 0 and the empty string |
| DataManager.Acceptable | src/components/DataManager.tsx:61 | the validity check: only an object with a non-empty version and a habits list passes |
| DataManager.Field | src/components/DataManager.tsx:61 | a field is present only on an object that has it |
| DataManager.OrEmpty | src/components/DataManager.tsx:66-68 | a truthy value is kept, anything else becomes the empty list |
| DataManager.Read | src/components/DataManager.tsx:13-15 | a missing key reads as the empty list |
| DataManager.Export | src/components/DataManager.tsx:11-23 | the document carries the three collections as read, the export date and version "1.0" |
| DataManager.Import | src/components/DataManager.tsx:50-68 | refused exactly without a truthy version or with a habits field that is not a list; otherwise the three keys are set (journal and slots defaulting to the empty list) and no other key changes |
| DataManager.ExportImportRoundTrip | src/components/DataManager.tsx:11-68 | importing an export is accepted, restores the three collections, keeps every other key, and exporting again gives the same document |
| DataManager.ExportOfMalformedHabitsRefused | src/components/DataManager.tsx:13-23 | when the stored habits are not a list, the export cannot be imported |
| DataManager.LocalStore.constructor | src/components/DataManager.tsx:13 | the store starts with the given contents |
| DataManager.LocalStore.ExportData | src/components/DataManager.tsx:11-23 | the document from the store as it is: the three collections (missing ones as empty lists), the export date and version "1.0" |
| DataManager.LocalStore.ImportData | src/components/DataManager.tsx:50-68 | the three sequential writes after the check amount to the import; a refused document leaves the store unchanged |

## Left out

- Remote storage, authentication and the guest/remote switch are not modelled. Each component works on its own in-memory state. The remote branch of toggling computes the same new values as the guest branch, from the habit that has the id.
- With duplicate ids, the remote branch of toggling gives every habit with the id the values computed from the first of them. The model follows the guest branch, which toggles each such habit on its own values; the two agree when ids are unique.
- Reading and writing the browser's storage on load and on change is not modelled. The classes' constructors take the saved list instead. A stored `user_id` is not modelled.
- JSON text is not modelled. Neither is parsing a malformed file, `FileReader`, the download link, `Blob`/URL objects or the page reload after import. Import and export work on parsed values. JSON numbers are whole numbers.
- Dates and clocks are not modelled:
  - ISO and local date strings, time zones, and the noon normalisation and millisecond arithmetic of the day index are all replaced by integer day numbers;
  - `toTimeString().slice(0, 5)` is replaced by an "HH:MM" parameter;
  - `localeCompare` is taken as plain character order.
- Id generation (`crypto.randomUUID`, `Date.now`) is not modelled: ids are parameters.
- The midnight refresh timer, toasts, rendering, weekday labels, chart colours and the displayed average are not modelled.
- The `|| 0` fallbacks for missing streaks and counts, and `NaN`, are not modelled: streaks are integers.
- Insights.Percent: `Math.round` on a floating-point quotient is modelled as exact rational rounding, halves up. Floating-point error at exact halves is not modelled.
- Insights.MoodChart: the `filter` step and the counting `forEach` are fused into one loop. The window used is the seven days up to today (see Findings). The chart is a list of mood and count pairs in first-seen order, which stands for the object and its `Object.entries` order.

## Findings

| source | as written | input that shows it | evidently intended | confidence | as-written member | corrected member |
|---|---|---|---|---|---|---|
| src/components/Insights.tsx:142-148 | the window starts at the current instant six days ago, while an entry's date is the start of its day, so an entry from six days ago is excluded at any time of day after midnight | an entry dated today-6 at 15:00 today: the entry's instant is before the current instant minus six days, so it is dropped | entries from the last seven days, today included, are counted | not executed | Insights.WindowAsWrittenDropsOldestDay | Insights.MoodChart |
| src/components/TimetableCreator.tsx:67-75 | the first slot in the time-sorted list whose time is not after now is reported, which is always the earliest slot of the day once it has started | slots "08:00 Breakfast" and "14:00 Meeting" at "15:00": Breakfast is reported | the slot that started most recently is the current one | not executed | Timetable.CurrentSlotDiscrepancy | Timetable.LastStartedIsLatest |
