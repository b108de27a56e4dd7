/** Sequences of user intents applied to the tracker, and what holds along
    every such sequence: the undo log only grows at its end, every logged date
    change carries a snapshot, and a deleted task does not come back unless
    its key is handed out again by an add. */
module Session {
  import opened Wrappers
  import opened Items
  import opened UndoLog
  import opened Tracker

  /** One user action, with the inputs the interface supplies for it. */
  datatype Intent =
    | AddIntent(name: string, category: string, frequency: string, today: Day, newKey: Key)
    | DeleteIntent(key: Key)
    | ChangeDateIntent(key: Key, date: Option<Day>)
    | TodayIntent(key: Key, today: Day)
    | UndoIntent(key: Key)

  /** Whether the interface can issue `e` in `s`: the date input and the
      Today and undo buttons belong to the row of a stored task, and the item
      store never hands out a key that is already stored. */
  predicate Enabled(s: State, e: Intent) {
    match e
    case AddIntent(_, _, _, _, newKey) => newKey !in s.items
    case DeleteIntent(_) => true
    case ChangeDateIntent(k, _) => k in s.items
    case TodayIntent(k, _) => k in s.items
    case UndoIntent(k) => k in s.items
  }

  function Step(s: State, e: Intent): State
    requires Enabled(s, e)
  {
    match e
    case AddIntent(name, category, frequency, today, newKey) => AddItem(s, name, category, frequency, today, newKey)
    case DeleteIntent(k) => DeleteItem(s, k)
    case ChangeDateIntent(k, date) => ChangeDate(s, k, date)
    case TodayIntent(k, today) => CleanToday(s, k, today)
    case UndoIntent(k) => UndoChange(s, k)
  }

  /** Every intent of `es` is enabled when its turn comes. */
  predicate Allowed(s: State, es: seq<Intent>)
    decreases |es|
  {
    |es| == 0 || (Enabled(s, es[0]) && Allowed(Step(s, es[0]), es[1..]))
  }

  function Run(s: State, es: seq<Intent>): State
    requires Allowed(s, es)
    decreases |es|
  {
    if |es| == 0 then s else Run(Step(s, es[0]), es[1..])
  }

  /** `e` adds a task under `k`. */
  predicate AddsUnder(e: Intent, k: Key) {
    e.AddIntent? && e.newKey == k
  }

  /** Every logged date change carries the task as it was before the change. */
  ghost predicate WellFormed(s: State) {
    forall i :: 0 <= i < |s.log| && s.log[i].kind == Edit ==> s.log[i].data.Some?
  }

  /** One intent keeps the log's earlier entries, appends at most one, and
      keeps the log well formed. */
  lemma StepAppendOnly(s: State, e: Intent)
    requires Enabled(s, e)
    requires WellFormed(s)
    ensures |s.log| <= |Step(s, e).log| <= |s.log| + 1
    ensures Step(s, e).log[..|s.log|] == s.log
    ensures WellFormed(Step(s, e))
    ensures |Step(s, e).log| == |s.log| <==> Step(s, e) == s
  {
  }

  /** Along any sequence of intents the log only grows at its end, by at most
      one entry per intent, and stays well formed. */
  lemma {:induction false} RunAppendOnly(s: State, es: seq<Intent>)
    requires Allowed(s, es)
    requires WellFormed(s)
    ensures |s.log| <= |Run(s, es).log| <= |s.log| + |es|
    ensures Run(s, es).log[..|s.log|] == s.log
    ensures WellFormed(Run(s, es))
    decreases |es|
  {
    if |es| > 0 {
      var t := Step(s, es[0]);
      StepAppendOnly(s, es[0]);
      RunAppendOnly(t, es[1..]);
      assert Run(s, es) == Run(t, es[1..]);
      assert Run(s, es).log[..|s.log|] == Run(t, es[1..]).log[..|t.log|][..|s.log|];
    }
  }

  /** In a well-formed state, undo of a task with a date change on record
      always writes that change's earlier date back and logs one edit. */
  lemma UndoWritesWhenWellFormed(s: State, k: Key)
    requires k in s.items
    requires WellFormed(s)
    requires LastEdit(s.log, k).Some?
    ensures |UndoChange(s, k).log| == |s.log| + 1
    ensures UndoChange(s, k).items[k].lastCleaned == s.log[LastEdit(s.log, k).value].data.value.lastCleaned
  {
  }

  /** A key that is not stored stays unstored through any sequence of intents
      that does not add under that key; after a delete, no date change, Today
      or undo brings the task back. */
  lemma {:induction false} AbsentStaysAbsent(s: State, k: Key, es: seq<Intent>)
    requires k !in s.items
    requires Allowed(s, es)
    requires forall e :: e in es ==> !AddsUnder(e, k)
    ensures k !in Run(s, es).items
    decreases |es|
  {
    if |es| > 0 {
      var t := Step(s, es[0]);
      assert es[0] in es;
      assert k !in t.items;
      AbsentStaysAbsent(t, k, es[1..]);
    }
  }

  /** A deleted task is not brought back by any later intents that do not add
      under its key. */
  lemma DeletedStaysDeleted(s: State, k: Key, es: seq<Intent>)
    requires Allowed(DeleteItem(s, k), es)
    requires forall e :: e in es ==> !AddsUnder(e, k)
    ensures k !in Run(DeleteItem(s, k), es).items
  {
    AbsentStaysAbsent(DeleteItem(s, k), k, es);
  }
}
