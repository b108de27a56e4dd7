/** The undo log: every add, delete and date change appends one action,
    oldest first, and undo looks back through it for the latest date change
    of a task. */
module UndoLog {
  import opened Wrappers
  import opened Items

  datatype ActionType = Add | Delete | Edit

  /** One logged action. `data` is the task as it was just before the action;
      an add has none, and a delete of a key that was not stored has none. */
  datatype Action = Action(kind: ActionType, key: Key, data: Option<Item>)

  /** The actions undo may pick for `k`: date changes of `k` and nothing else. */
  predicate IsEditOf(a: Action, k: Key) {
    a.kind == Edit && a.key == k
  }

  /** `after` is `before` with exactly `a` appended: no earlier entry is
      changed or dropped. */
  predicate AppendsOne(before: seq<Action>, after: seq<Action>, a: Action) {
    |after| == |before| + 1 && after[..|before|] == before && after[|before|] == a
  }

  /** The position of the most recent date change of `k`, the action the
      app finds by reversing the log and taking the first match. */
  function LastEdit(log: seq<Action>, k: Key): (r: Option<nat>)
    ensures r.Some? ==> r.value < |log| && IsEditOf(log[r.value], k)
    ensures r.Some? ==> forall j :: r.value < j < |log| ==> !IsEditOf(log[j], k)
    ensures r.None? <==> forall j :: 0 <= j < |log| ==> !IsEditOf(log[j], k)
    decreases |log|
  {
    if |log| == 0 then None
    else if IsEditOf(log[|log| - 1], k) then Some(|log| - 1)
    else LastEdit(log[..|log| - 1], k)
  }

  /** Appending an action that is not a date change of `k` (an add, a delete,
      or any action on another key) leaves undo's choice for `k` unchanged:
      in particular a logged delete is never what undo picks. */
  lemma LastEditSkips(log: seq<Action>, a: Action, k: Key)
    requires !IsEditOf(a, k)
    ensures LastEdit(log + [a], k) == LastEdit(log, k)
  {
  }

  /** Right after a date change of `k` is logged, undo picks that very entry. */
  lemma LastEditOfNewest(log: seq<Action>, a: Action, k: Key)
    requires IsEditOf(a, k)
    ensures LastEdit(log + [a], k) == Some(|log|)
  {
  }
}
