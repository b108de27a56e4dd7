/** The page's grouping of tasks: one section per category of the fixed
    list, in the list's order, each showing the stored tasks of that category. */
module CategoryView {
  import opened Items

  /** The categories tasks are shown under, in page order. */
  const Categories: seq<string> :=
    ["Living Room", "Kitchen", "Main Bathroom", "En Suite Bathroom", "Bedroom", "Overall", "Stuff"]

  /** One section of the page: a category and the tasks shown under it. */
  datatype Group = Group(category: string, members: map<Key, Item>)

  /** The stored tasks whose category is `category`. */
  function InCategory(items: map<Key, Item>, category: string): (r: map<Key, Item>)
    ensures forall k :: k in r <==> k in items && items[k].category == category
    ensures forall k :: k in r ==> r[k] == items[k]
  {
    map k | k in items && items[k].category == category :: items[k]
  }

  /** The sections of the page for the stored tasks. */
  function GroupByCategory(items: map<Key, Item>): (r: seq<Group>)
    ensures |r| == |Categories|
    ensures forall i :: 0 <= i < |r| ==> r[i].category == Categories[i]
    ensures forall i, k :: 0 <= i < |r| && k in r[i].members ==> k in items && r[i].members[k] == items[k]
    ensures forall i, k :: 0 <= i < |r| && k in items ==>
              (k in r[i].members <==> items[k].category == Categories[i])
  {
    seq(|Categories|, i requires 0 <= i < |Categories| => Group(Categories[i], InCategory(items, Categories[i])))
  }

  /** No category is listed twice. */
  lemma CategoriesDistinct()
    ensures forall i, j :: 0 <= i < j < |Categories| ==> Categories[i] != Categories[j]
  {
  }

  /** The sections partition the listed tasks: a task of a listed category is
      shown, unchanged, in exactly the section for its category, and a task of
      any other category is shown nowhere. */
  lemma GroupsPartition(items: map<Key, Item>, k: Key)
    ensures var groups := GroupByCategory(items);
      && (k in items && items[k].category in Categories ==>
            exists i :: 0 <= i < |groups| && k in groups[i].members && groups[i].members[k] == items[k])
      && (forall i :: 0 <= i < |groups| && k in groups[i].members ==>
            k in items && groups[i].members[k] == items[k] && Categories[i] == items[k].category)
      && (forall i, j :: 0 <= i < |groups| && 0 <= j < |groups| && k in groups[i].members && k in groups[j].members ==> i == j)
      && (k in items && items[k].category !in Categories ==>
            forall i :: 0 <= i < |groups| ==> k !in groups[i].members)
  {
  }
}
