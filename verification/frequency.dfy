/** The table of cleaning intervals the frequency selector offers. */
module Frequency {
  import opened Wrappers

  /** Each choice with its interval in days, in the order the selector lists them. */
  const Table: seq<(string, nat)> :=
    [("1 week", 7), ("2 weeks", 14), ("3 weeks", 21), ("1 month", 30), ("2 months", 60), ("3 months", 90)]

  /** The interval used for a choice the table does not know. */
  const DefaultDays: nat := 7

  /** The interval the first entry of `table` labelled `choice` gives, if any. */
  function Find(table: seq<(string, nat)>, choice: string): (r: Option<nat>)
    ensures r.None? <==> forall i :: 0 <= i < |table| ==> table[i].0 != choice
    ensures r.Some? ==> (choice, r.value) in table
    ensures r.Some? ==> exists i :: 0 <= i < |table| && table[i] == (choice, r.value)
                                    && forall j :: 0 <= j < i ==> table[j].0 != choice
  {
    if |table| == 0 then None
    else if table[0].0 == choice then Some(table[0].1)
    else
      var r := Find(table[1..], choice);
      assert r.Some? ==> exists i :: 0 <= i < |table[1..]| && table[1..][i] == (choice, r.value)
                                     && forall j :: 0 <= j < i ==> table[1..][j].0 != choice;
      r
  }

  /** The interval, in days, of a stored frequency choice: the table's value
      for one of its six labels and the default of a week for anything else. */
  function FrequencyDays(choice: string): (r: nat)
    ensures r > 0
    ensures (exists i :: 0 <= i < |Table| && Table[i].0 == choice) ==> (choice, r) in Table
    ensures (forall i :: 0 <= i < |Table| ==> Table[i].0 != choice) ==> r == DefaultDays
  {
    Find(Table, choice).GetOr(DefaultDays)
  }

  /** Every choice of the table gets exactly its own interval back. */
  lemma FrequencyDaysOfTable()
    ensures forall i :: 0 <= i < |Table| ==> FrequencyDays(Table[i].0) == Table[i].1
  {
  }
}
