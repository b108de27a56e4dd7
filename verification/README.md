# Cleaning log: task freshness and undo, in Dafny

A model of the logic of the cleaning-log web app (`src/App.js`). The app keeps
household cleaning tasks in a realtime item store, colours each task green,
yellow or red by how long ago it was last cleaned against its interval, lets
the user add, delete and re-date tasks (or mark them cleaned today), keeps a
log of those actions so that the latest date change of a task can be undone,
and shows the tasks in sections by room.

The model is functional: a state of stored items (a map from the store's key
to the record) and the undo log (a sequence of actions), with one pure
transition per user intent.

- `Frequency` (`frequency.dfy`): the label → days table and its fallback of 7.
- `Freshness` (`freshness.dfy`): days since the last cleaning and the
  three-tier colour.
- `UndoLog` (`undo_log.dfy`): logged actions and undo's backwards search.
- `Tracker` (`tracker.dfy`): the state and the five transitions (add, delete,
  change date, today, undo).
- `Session` (`session.dfy`): runs of many intents; the log only grows at its
  end, stays well formed, and a deleted task stays deleted.
- `CategoryView` (`category_view.dfy`): the grouping of tasks into the fixed
  room sections.
- `Items`, `Wrappers`: the record type and `Option`.

Modelling choices:

- Dates are whole UTC day numbers. The app computes days since the last
  cleaning as `floor((now - date) / one day)`, where `date` is midnight UTC and
  `now` is some moment of `today`. That is exactly `today - date`, so the model
  uses that. `today` is a parameter wherever the app reads the clock.
- A stored date that does not parse is `None`; a cleared date input stores
  the empty string. The app's comparisons with NaN then fail and the task
  is red. The model keeps exactly that behaviour and claims no day count
  for such a task.
- The store's writes are applied to the map at once (a synchronous echo).
  The key that `push` would return is a parameter `newKey`, which must not
  already be stored.
- Changing the date, Today and undo require the key to be stored. Their only
  call sites are controls in the row the page draws for a stored task of a listed category, and
  with a synchronous echo such a row exists only when its key is stored.
  Delete is total, because removing an absent key is a no-op in the store; the
  logged snapshot is then `None`, as `items[key]` is undefined.
- The test "`daysSince < frequencyDays / 2`" divides in floating point.
  `TierFor` makes that comparison on reals, and its contract states the
  bands over integers: green exactly when `2 * days < f`.

Behaviour of the code that the model keeps, though a reader might expect otherwise:

- A second undo does not report "nothing to undo". Undo writes the date back
  through the ordinary date change, which logs an edit of its own, so a second
  undo finds that edit and redoes the first change (`Tracker.UndoTwiceRedoes`).
- A task with an unparsable date is red, not a separate "unknown" tier.
- An empty name makes add do nothing; it is not reported as an error.
  Categories and labels are not validated. An item of an unlisted category
  is simply shown in no section, and an unknown label counts as 7 days.

## Model

| member | source | states |
|---|---|---|
| `Frequency.FrequencyDays` | src/App.js:87 | the interval of a label is always positive; a label of the table gets its table value; any other label gets 7 |
| `Frequency.FrequencyDaysOfTable` | src/App.js:23-30 | each of the six labels (1 week … 3 months) maps to its own interval: 7, 14, 21, 30, 60, 90 |
| `Frequency.Find` | src/App.js:23-30 | a lookup in the table misses exactly when no entry has the label; a hit returns the value of the first entry with that label |
| `Freshness.DaysSince` | src/App.js:94-96 | there is a day count exactly when the stored date parses, and the date plus the count is today |
| `Freshness.TierFor` | src/App.js:89-91 | green exactly when 2·days < f, yellow exactly when f ≤ 2·days and days < f, red exactly when days ≥ f; the bands are compared with the app's halving done on reals |
| `Freshness.ColorClass` | src/App.js:85-92 | an unparsable date is red; otherwise green exactly when twice the days since cleaning is below the label's interval, and red exactly when the whole interval has passed |
| `Freshness.TierMonotone` | src/App.js:89-91 | for a fixed interval, more days never give a fresher tier |
| `Freshness.ColorMonotoneInTime` | src/App.js:85-92 | as today moves on, a task's colour never gets fresher |
| `Freshness.CleanedTodayIsGreen` | src/App.js:85-92 | a task cleaned today is 0 days old and green, whatever its label |
| `Freshness.WeeklyExamples` | src/App.js:85-92 | with the weekly label, 3 days ago is green, 5 is yellow and 10 is red |
| `UndoLog.LastEdit` | src/App.js:79 | the reverse search returns the position of a date change of the key with no later date change of that key, and finds nothing exactly when the log holds no date change of the key |
| `UndoLog.LastEditSkips` | src/App.js:79 | appending an add, a delete or an action on another key does not change which entry undo picks, so a delete is never picked |
| `UndoLog.LastEditOfNewest` | src/App.js:79 | right after a date change of a key is logged, undo picks that entry |
| `Tracker.AddItem` | src/App.js:47-61 | an empty name changes neither the items nor the log; otherwise the new key stores the name, category and label, cleaned today, no other item changes, exactly one add action for the new key is appended, and the new task is green |
| `Tracker.DeleteItem` | src/App.js:63-66 | the key is no longer stored, no other item changes, and exactly one delete action carrying the item as it was is appended |
| `Tracker.ChangeDate` | src/App.js:68-71 | only the last-cleaned date of the key changes; name, category, label, the set of keys and all other items stay; exactly one edit action carrying the item as it was is appended |
| `Tracker.CleanToday` | src/App.js:73-76 | Today is the date change to today, and leaves the task green |
| `Tracker.UndoChange` | src/App.js:78-83 | no key is added or removed and only the date of the key can change; with no date change of the key on record, or when the picked entry carries no snapshot (the app throws before writing), the state is unchanged; otherwise the date in the picked entry's snapshot is written back and one edit is appended |
| `Tracker.UndoRestores` | src/App.js:68-83 | undo right after a date change puts every item back exactly as it was |
| `Tracker.UndoTwiceRedoes` | src/App.js:78-83 | a second undo redoes the date change the first one reverted |
| `Session.StepAppendOnly` | src/App.js:47-83 | one intent keeps every earlier log entry, appends at most one, and keeps every logged edit carrying a snapshot; the log stays the same length exactly when the intent changes nothing (an add with an empty name, an undo with nothing on record) |
| `Session.RunAppendOnly` | src/App.js:47-83 | along any run of intents the log only grows at its end, by at most one entry per intent, and stays well formed |
| `Session.UndoWritesWhenWellFormed` | src/App.js:78-83 | in a well-formed state, undo with a date change on record always writes that change's earlier date back |
| `Session.AbsentStaysAbsent` | src/App.js:63-83 | a key that is not stored stays unstored through any run that does not add under it |
| `Session.DeletedStaysDeleted` | src/App.js:63-83 | after a delete, the key stays unstored through any run the page can issue that does not add under it; the page offers no date change, Today or undo for a deleted key (that undo never picks a logged delete is `UndoLog.LastEditSkips`) |
| `CategoryView.InCategory` | src/App.js:137-138 | the filter keeps exactly the stored tasks of the category, unchanged |
| `CategoryView.GroupByCategory` | src/App.js:134-138 | one section per listed category in list order; a section holds exactly the stored tasks of its category, unchanged |
| `CategoryView.CategoriesDistinct` | src/App.js:13-21 | no category is listed twice |
| `CategoryView.GroupsPartition` | src/App.js:134-138 | a task of a listed category appears in exactly one section, the one for its category; a task of an unlisted category appears in none |

## Left out

- `src/firebase.js` (configuration, `saveData`, `getData`): network I/O with no logic.
- The store calls (`ref`, `push`, `set`, `remove`, `onValue`): writes become direct map updates, and the key `push` returns is a parameter. The listener that replaces the items with each incoming snapshot is not modelled. Neither is a remote snapshot overwriting a local change.
- Clock and date parsing (`Date.now()`, `new Date(…)`, `toISOString().split('T')[0]`): dates are UTC day numbers and today is a parameter.
- The "NaN days ago" text shown for an unparsable date: `DaysSince` returns `None` there.
- React state, hooks, stale closures over `undoStack`, JSX, CSS class strings beyond the three tiers, and the form state (`newItem`, `selectedCategory`, `selectedFrequency` become parameters; clearing the name input after an add is not modelled).
- A date change or undo for a key that is not stored: the store would create a record holding only the date. No control of the page can issue this when the echo is synchronous.
- Frequency.FrequencyDays: in the app, a stored label that names an inherited object property (such as "toString") is looked up on the object prototype and does not fall back to 7, so such a task is always red (its comparisons are with NaN); the model treats every label outside the table as unknown and gives it 7 days.
- Records written by other clients with fields missing, such as a record without a label: every modelled record carries all four fields.
- CategoryView.GroupByCategory: the order of tasks within a section follows the store's key order in the app; the model gives each section as a map and states no order inside it.
