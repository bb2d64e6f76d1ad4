# Habit tracker screen logic, verified

A Dafny model of the state-update and matching rules inside three screens of a
React Native habit-tracking app. The UI, the HTTP calls and the date library
are stripped away. What is left is stated and proved:

- **Day detail** (`src/screens/Habit.tsx`, module `Habit`). The screen keeps a
  record of the day's possible habits and the ids of the completed ones.
  Pressing a habit sends a remote toggle request. Only when that request
  succeeds does the screen filter the id out (if completed) or append it
  (if not). The screen also derives the checkbox list, which boxes are
  checked, whether they are disabled (the day is over), and the two counts
  given to the progress helper.
- **Year grid** (`src/screens/Home.tsx`, module `Home`). Each date from the
  start of the year becomes a cell showing the first summary entry on the
  same calendar day, or nothing. Filler cells pad the grid to 18 × 7 = 126.
- **Weekday picker** (`src/screens/New.tsx`, module `NewHabit`). Seven
  checkboxes toggle weekday indices 0..6 in a list that starts empty.

Shared pieces:

- `ToggleList` holds the filter-or-append toggle that both the day screen and
  the weekday picker use.
- `Calendar` holds day arithmetic. An instant is a local-time millisecond
  count. Two instants are on the same day when they have the same
  `DayOf`, i.e. the same number of whole days since the epoch.
- `Wrappers` holds `Option`, which stands for `null`/`undefined`.

Network results are parameters. `HabitScreen.HandleToggleHabit` takes
`patchOk`, the outcome of the remote toggle. `FetchHabits` and `FetchData`
take the response body, or `None` when the request was rejected. The current
instant (`new Date()`) is the parameter `now`. The list of dates from the
start of the year is a parameter `dates`.

The toggle is not optimistic: the handler awaits the remote request first
(`src/screens/Habit.tsx:64`), and a rejected request lands in the `catch`
and leaves the record untouched. A toggle before any record has loaded also
fails: `habitsInfo!` is `null`, the exception is caught, and nothing changes.

Two other behaviours are modelled as written:

- An empty `possibleHabits` array is truthy in JavaScript. So the "no habits"
  placeholder appears only while there is no record, never for a day without
  habits (`RenderHabitList`).
- `completedHabits` is a list, not a set. The toggle removes every
  occurrence of an id. `WellFormed` is the set-like invariant (no
  duplicates, only ids of possible habits), and toggles of possible habits
  preserve it.

## Model

| member | source | states |
|---|---|---|
| `ToggleList.Remove` | src/screens/Habit.tsx:70 | the filter drops every occurrence of the id and keeps every other element with its multiplicity (multiset with the id's count set to 0) |
| `ToggleList.Toggle` | src/screens/New.tsx:22-28 | after the toggle the element is present exactly when it was absent before; membership of every other element is unchanged |
| `ToggleList.RemoveConcat` | src/screens/Habit.tsx:70 | filtering distributes over concatenation, so the surviving elements keep their relative order |
| `ToggleList.RemoveAbsent` | src/screens/New.tsx:24 | filtering out an element that is not in the list returns the list itself |
| `ToggleList.RemoveKeepsNoDup` | src/screens/New.tsx:24 | filtering keeps a duplicate-free list duplicate-free |
| `ToggleList.ToggleKeepsNoDup` | src/screens/New.tsx:22-28 | toggling keeps a duplicate-free list duplicate-free |
| `ToggleList.ToggleTwiceAbsent` | src/screens/New.tsx:22-28 | toggling an absent element appends it at the end after the unchanged earlier entries; toggling it again restores exactly the original list |
| `ToggleList.ToggleTwicePresent` | src/screens/Habit.tsx:66-73 | toggling a present element twice gives the filtered list with the element appended: same set of elements, and the same multiset when the list had no duplicates |
| `Calendar.DayOf` | src/screens/Home.tsx:80 | an instant lies inside the day it is assigned to: between the day's first millisecond and the next day's |
| `Calendar.EndOfDay` | src/screens/Habit.tsx:36 | `endOf('day')` is on the same day, not before the instant, and not before any instant of that day |
| `Calendar.SameDay` | src/screens/Home.tsx:80 | `isSame(…, 'day')`: two instants on the same calendar day are less than a day apart, and an instant after the end of another's day is never on the same day |
| `Calendar.EndOfDayBefore` | src/screens/Habit.tsx:36 | the end of a date's day is before `now` exactly when the date's day is an earlier calendar day than `now`'s |
| `Habit.ToggleHabit` | src/screens/Habit.tsx:66-78 | the new record has the same possible habits; the toggled id is completed exactly when it was not; every other id keeps its completion state |
| `Habit.IsDateInPast` | src/screens/Habit.tsx:36 | a date is in the past exactly when its calendar day is before today's |
| `Habit.RenderHabitList` | src/screens/Habit.tsx:111-123 | without a record the placeholder shows; with one, one checkbox per possible habit in order, with its title, checked iff its id is completed, disabled iff the day is before today |
| `Habit.Progress` | src/screens/Habit.tsx:40-45 | the progress helper receives the number of possible habits and the length of the completed list; without a record the progress is the constant 0 |
| `Habit.ToggleHabitKeepsWellFormed` | src/screens/Habit.tsx:66-78 | toggling a possible habit keeps the completed ids duplicate-free and a subset of the possible habits' ids |
| `Habit.ToggleHabitTwice` | src/screens/Habit.tsx:66-73 | toggling an uncompleted habit twice restores the record exactly; toggling a completed, non-duplicated habit twice keeps the possible habits and the completed multiset, with the id moved to the end |
| `Habit.ToggleHabitProgress` | src/screens/Habit.tsx:40-45 | after a toggle the completed count given to the progress helper is one more when the habit was not completed, and less by the id's number of occurrences when it was (one less for a duplicate-free list); the possible count is unchanged |
| `Habit.ProgressBounded` | src/screens/Habit.tsx:40-45 | for a well-formed record the completed count never exceeds the possible count |
| `Habit.ToggleHabitFlipsOneCheckBox` | src/screens/Habit.tsx:116-117 | after a toggle only the toggled habit's checkbox changes its check mark; titles and the disabled flag are unchanged |
| `Habit.HabitScreen.constructor` | src/screens/Habit.tsx:29-30 | the screen starts loading, with no record |
| `Habit.HabitScreen.FetchHabits` | src/screens/Habit.tsx:47-60 | the loading flag ends false; a successful response replaces the record; a rejected one leaves it as it was |
| `Habit.HabitScreen.HandleToggleHabit` | src/screens/Habit.tsx:62-84 | the record becomes the toggled record only when the remote toggle succeeded and a record exists, and stays the same otherwise; the loading flag is untouched; a toggle of a possible habit keeps a well-formed record well-formed |
| `Home.FindSameDay` | src/screens/Home.tsx:80 | the index found is the first summary entry on the same calendar day as the date; no index means no entry is on that day |
| `Home.AmountOfDaysToFill` | src/screens/Home.tsx:17-18 | the date count plus `amountOfDaysToFill` is always 126, and it is positive exactly when there are fewer than 126 dates |
| `Home.FillerCount` | src/screens/Home.tsx:93 | no fillers exactly when there are at least 126 dates; otherwise dates plus fillers make exactly 126 |
| `Home.DayWithHabits` | src/screens/Home.tsx:80 | `dayWithHabits` is an entry of the summary on the date's calendar day, and is undefined exactly when no entry is on that day |
| `Home.DateCell` | src/screens/Home.tsx:80-90 | the cell carries its date; amount and completed are present together, and absent exactly when no summary entry is on that day |
| `Home.Grid` | src/screens/Home.tsx:79-99 | the grid has at least 126 cells and at least one per date; the first cells carry the dates in order, the rest are fillers |
| `Home.GridShape` | src/screens/Home.tsx:17-18 | the filler count is max(0, 126 - n); the grid has max(n, 126) cells: the cell of each date in date order, then fillers only |
| `Home.DateCellContents` | src/screens/Home.tsx:80-87 | a date cell has its date, and the amount and completed count of the first same-day summary entry, or neither when no entry is on that day |
| `Home.DayWithHabitsIsFirstOnDay` | src/screens/Home.tsx:80 | the `find` result equals a reference definition: the first of the entries on that day, or none |
| `Home.OnlySameDayMatters` | src/screens/Home.tsx:80 | two summaries with the same entries on a date's day give that date the same cell |
| `Home.OtherDayEntryIrrelevant` | src/screens/Home.tsx:80 | inserting or removing a summary entry on another day anywhere in the list does not change a cell |
| `Home.InitialGridBlank` | src/screens/Home.tsx:29 | with the initial empty summary every date cell has no amount and no completed count |
| `Home.HomeScreen.constructor` | src/screens/Home.tsx:28-29 | the screen starts loading, with an empty summary |
| `Home.HomeScreen.FetchData` | src/screens/Home.tsx:32-48 | the loading flag ends false; a successful response replaces the summary; a rejected one leaves it as it was |
| `Home.FirstFetchRejected` | src/screens/Home.tsx:36-46 | if the first summary request is rejected, the grid still has max(n, 126) cells and every date cell has no amount and no completed count |
| `NewHabit.RenderWeekDays` | src/screens/New.tsx:59-66 | seven checkboxes in weekday order, box i titled with the i-th weekday and checked iff i is in the list |
| `NewHabit.ToggleKeepsValid` | src/screens/New.tsx:22-28 | toggling an index in 0..6 keeps the list duplicate-free with every element in 0..6 |
| `NewHabit.ValidWeekDaysLength` | src/screens/New.tsx:20 | a duplicate-free list of indices in 0..6 has at most seven entries |
| `NewHabit.PressesKeepValid` | src/screens/New.tsx:59-64 | any sequence of checkbox presses (indices 0..6) from a valid list, in particular the initial empty one, leaves a valid list of at most seven entries |
| `NewHabit.PressFlipsOneBox` | src/screens/New.tsx:63 | toggling index k flips checkbox k and leaves every other checkbox's check mark unchanged |
| `NewHabit.NewScreen.constructor` | src/screens/New.tsx:20 | the weekday list starts empty, which satisfies the invariant |
| `NewHabit.NewScreen.HandleToggleWeekDay` | src/screens/New.tsx:22-28 | the new list is the toggle of the old: all occurrences filtered out if the index was chosen, otherwise appended at the end; an index in 0..6 keeps the invariant |

## Left out

- HTTP requests (`api.get`, `api.patch`), `Alert.alert` and console logging: I/O. Request outcomes are parameters.
- `generateProgressPercentage`: its source is not part of this model. Only its two arguments are modelled (`Habit.Progress`).
- `generateDatesFromYearBeginning`: its source is not part of this model. The date range is the parameter `dates`.
- Time zones and the date library's parsing and formatting: instants are local-time milliseconds, and `isSame(…, 'day')` compares `DayOf`.
- Habit creation: the title input and the confirm button in `src/screens/New.tsx` have no handler, so there is no validation or request to model.
- The checkbox widget, layout, styling, navigation, list keys and the loading spinner: presentation only.
- React's asynchronous state batching: `handleToggleWeekDay` tests membership on the rendered list and updates the pending one. The model applies toggles one after another, so the two lists coincide.
- Overlapping toggles: `handleToggleHabit` builds the new record from the `habitsInfo` captured when the box was pressed (`src/screens/Habit.tsx:66-77`). If two boxes are pressed before the first request returns, the first local update is lost even when the responses arrive in order, and the screen then disagrees with the server. `HandleToggleHabit` toggles the current record, one press after another, so it does not capture this lost update.
- Concurrent or out-of-order responses in general: each request's outcome is applied as one sequential step.
