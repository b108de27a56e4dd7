/** The task tracker as a state machine: the stored items and the undo log,
    changed by the five user intents. Writes to the item store take effect at
    once (its echo is treated as synchronous); the key the store would hand
    out for a new record and the current day are parameters. */
module Tracker {
  import opened Wrappers
  import opened Items
  import opened UndoLog
  import Freshness

  datatype State = State(items: map<Key, Item>, log: seq<Action>)

  /** The state before anything has been loaded or done. */
  const Initial: State := State(map[], [])

  /** The item stored under `k`, if any (the app's `items[key]`). */
  function Lookup(items: map<Key, Item>, k: Key): Option<Item> {
    if k in items then Some(items[k]) else None
  }

  /** Every key other than `k` is stored in both maps or in neither, with the
      same item. */
  ghost predicate SameExcept(a: map<Key, Item>, b: map<Key, Item>, k: Key) {
    forall j :: j != k ==> Lookup(a, j) == Lookup(b, j)
  }

  /** Adding a task. An empty name changes nothing; otherwise a record cleaned
      today is stored under the new key and one add action is logged. */
  function AddItem(s: State, name: string, category: string, frequency: string, today: Day, newKey: Key): (r: State)
    requires newKey !in s.items
    ensures name == "" ==> r == s
    ensures name != "" ==> r.items.Keys == s.items.Keys + {newKey}
    ensures name != "" ==> r.items[newKey] == Item(name, category, Some(today), frequency)
    ensures name != "" ==> SameExcept(s.items, r.items, newKey)
    ensures name != "" ==> AppendsOne(s.log, r.log, Action(Add, newKey, None))
    ensures name != "" ==> Freshness.ColorClass(r.items[newKey].lastCleaned, frequency, today) == Freshness.Green
  {
    if name == "" then s
    else
      var r := State(s.items[newKey := Item(name, category, Some(today), frequency)],
                     s.log + [Action(Add, newKey, None)]);
      Freshness.CleanedTodayIsGreen(frequency, today);
      r
  }

  /** Deleting a task: the key is gone from the store and one delete action,
      carrying the item as it was, is logged. Deleting a key that is not
      stored still logs the action and leaves the items as they are. */
  function DeleteItem(s: State, k: Key): (r: State)
    ensures r.items.Keys == s.items.Keys - {k}
    ensures SameExcept(s.items, r.items, k)
    ensures AppendsOne(s.log, r.log, Action(Delete, k, Lookup(s.items, k)))
  {
    State(s.items - {k}, s.log + [Action(Delete, k, Lookup(s.items, k))])
  }

  /** Setting the last-cleaned date of a stored task: only that field of that
      task is written, and one edit action carrying the task as it was is
      logged. */
  function ChangeDate(s: State, k: Key, date: Option<Day>): (r: State)
    requires k in s.items
    ensures r.items.Keys == s.items.Keys
    ensures r.items[k].lastCleaned == date
    ensures r.items[k].name == s.items[k].name
    ensures r.items[k].category == s.items[k].category
    ensures r.items[k].frequency == s.items[k].frequency
    ensures SameExcept(s.items, r.items, k)
    ensures AppendsOne(s.log, r.log, Action(Edit, k, Some(s.items[k])))
  {
    State(s.items[k := s.items[k].(lastCleaned := date)], s.log + [Action(Edit, k, Some(s.items[k]))])
  }

  /** Marking a task as cleaned today: a date change to `today`, after which
      the task shows green. */
  function CleanToday(s: State, k: Key, today: Day): (r: State)
    requires k in s.items
    ensures r == ChangeDate(s, k, Some(today))
    ensures Freshness.ColorClass(r.items[k].lastCleaned, r.items[k].frequency, today) == Freshness.Green
  {
    var r := ChangeDate(s, k, Some(today));
    Freshness.CleanedTodayIsGreen(r.items[k].frequency, today);
    r
  }

  /** Undoing the latest date change of a stored task: its logged snapshot's
      date is written back through a date change, which logs an edit of its
      own. With no date change of `k` on record nothing happens. A found entry
      without a snapshot makes the app fail before it writes anything, so
      nothing happens then either. No key is ever added or removed. */
  function UndoChange(s: State, k: Key): (r: State)
    requires k in s.items
    ensures r.items.Keys == s.items.Keys
    ensures SameExcept(s.items, r.items, k)
    ensures r.items[k].name == s.items[k].name
    ensures r.items[k].category == s.items[k].category
    ensures r.items[k].frequency == s.items[k].frequency
    ensures LastEdit(s.log, k).None? ==> r == s
    ensures LastEdit(s.log, k).Some? && s.log[LastEdit(s.log, k).value].data.None? ==> r == s
    ensures LastEdit(s.log, k).Some? && s.log[LastEdit(s.log, k).value].data.Some? ==>
              r.items[k].lastCleaned == s.log[LastEdit(s.log, k).value].data.value.lastCleaned
              && AppendsOne(s.log, r.log, Action(Edit, k, Some(s.items[k])))
  {
    match LastEdit(s.log, k)
    case None => s
    case Some(i) =>
      match s.log[i].data
      case None => s
      case Some(snapshot) => ChangeDate(s, k, snapshot.lastCleaned)
  }

  /** Undo right after a date change puts every item back as it was. */
  lemma UndoRestores(s: State, k: Key, date: Option<Day>)
    requires k in s.items
    ensures UndoChange(ChangeDate(s, k, date), k).items == s.items
  {
  }

  /** A second undo does not report that there is nothing left: it picks the
      edit the first undo logged, so it redoes the original date change. */
  lemma UndoTwiceRedoes(s: State, k: Key, date: Option<Day>)
    requires k in s.items
    ensures UndoChange(UndoChange(ChangeDate(s, k, date), k), k).items == ChangeDate(s, k, date).items
  {
  }
}
