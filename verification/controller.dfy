/** The to-do page's handlers as pure transitions over the view state. A handler that calls
    the store returns the call as an effect; the local list changes only when a snapshot
    arrives. */
module Controller {
  import opened Text
  import opened Todo
  import opened Filtering

  /** A name the controller is willing to send to the store: non-blank, no surrounding
      whitespace. */
  predicate ValidName(name: string) {
    name != [] && Trimmed(name)
  }

  /** Typing in the new-item field replaces its text and nothing else. */
  function SetNewItem(s: State, text: string): (r: State)
    ensures r.newItem == text
    ensures r.items == s.items && r.filter == s.filter && r.editing == s.editing
  {
    s.(newItem := text)
  }

  /** Choosing a filter button changes the filter and nothing else. */
  function SetFilter(s: State, f: FilterType): (r: State)
    ensures r.filter == f
    ensures r.items == s.items && r.newItem == s.newItem && r.editing == s.editing
  {
    s.(filter := f)
  }

  /** Submitting the add form. A blank input is ignored; otherwise one document is created
      from the trimmed input, not yet completed, stamped `now`, and the input is cleared. */
  function AddItem(s: State, now: Timestamp): (r: Step)
    ensures r.state.items == s.items && r.state.filter == s.filter
    ensures r.state.editing == s.editing
    ensures r.effects == [] <==> AllWhitespace(s.newItem)
    ensures r.effects == [] ==> r.state == s
    ensures r.effects != [] ==>
      && r.state.newItem == ""
      && |r.effects| == 1
      && r.effects[0].Create?
      && r.effects[0].name == Trim(s.newItem)
      && ValidName(r.effects[0].name)
      && !r.effects[0].completed
      && r.effects[0].createdAt == now
  {
    var name := Trim(s.newItem);
    if name != "" then Step(s.(newItem := ""), [Create(name, false, now)])
    else Step(s, [])
  }

  /** The item built from one snapshot document: its id and its stored fields. */
  function ItemOf(d: Doc): (r: Item)
    ensures r.id == d.id
    ensures r.name == d.data.name && r.completed == d.data.completed
    ensures r.createdAt == d.data.createdAt
  {
    Item(d.id, d.data.name, d.data.completed, d.data.createdAt)
  }

  /** A snapshot replaces the local list with the delivered documents, in delivered order;
      the input, filter and edit slot stay as they are. */
  function OnSnapshot(s: State, docs: seq<Doc>): (r: State)
    ensures |r.items| == |docs|
    ensures forall i :: 0 <= i < |docs| ==>
      && r.items[i].id == docs[i].id
      && r.items[i].name == docs[i].data.name
      && r.items[i].completed == docs[i].data.completed
      && r.items[i].createdAt == docs[i].data.createdAt
    ensures r.newItem == s.newItem && r.filter == s.filter && r.editing == s.editing
  {
    s.(items := seq(|docs|, i requires 0 <= i < |docs| => ItemOf(docs[i])))
  }

  /** Clicking an item asks the store to flip the `completed` flag the row shows; the local
      state waits for the snapshot. */
  function ToggleComplete(s: State, id: string, completed: bool): (r: Step)
    ensures r.state == s
    ensures |r.effects| == 1 && r.effects[0].Update? && r.effects[0].id == id
    ensures r.effects[0].patch.SetCompleted? && r.effects[0].patch.completed != completed
  {
    Step(s, [Update(id, SetCompleted(!completed))])
  }

  /** Saving an edit (button or Enter key) of the row with id `id`. A blank draft is
      ignored and the edit stays open; otherwise the store renames the item to the trimmed
      draft and the edit slot closes. */
  function SaveEdit(s: State, id: string): (r: Step)
    ensures r.state.items == s.items && r.state.newItem == s.newItem
    ensures r.state.filter == s.filter
    ensures r.effects == [] <==> AllWhitespace(s.editing.text)
    ensures r.effects == [] ==> r.state == s
    ensures r.effects != [] ==>
      && r.state.editing == NotEditing
      && |r.effects| == 1
      && r.effects[0] == Update(id, SetName(Trim(s.editing.text)))
      && ValidName(Trim(s.editing.text))
  {
    var name := Trim(s.editing.text);
    if name != "" then Step(s.(editing := NotEditing), [Update(id, SetName(name))])
    else Step(s, [])
  }

  /** Clicking the bin asks the store to delete the item; the local state waits for the
      snapshot. */
  function DeleteItem(s: State, id: string): (r: Step)
    ensures r.state == s
    ensures r.effects == [Delete(id)]
  {
    Step(s, [Delete(id)])
  }

  /** Whether the row for `item` renders as an edit field. */
  predicate InEditMode(s: State, item: Item)
    ensures s.editing.id.None? ==> !InEditMode(s, item)
    ensures InEditMode(s, item) ==> s.editing != NotEditing && s.editing.id.value == item.id
  {
    s.editing.id == Some(item.id)
  }

  /** Clicking the pencil on a row opens the edit slot on that item, with its current name
      as the draft, replacing any edit in progress. */
  function StartEdit(s: State, item: Item): (r: State)
    ensures r.editing.id == Some(item.id) && r.editing.text == item.name
    ensures InEditMode(r, item)
    ensures forall x: Item :: x.id != item.id ==> !InEditMode(r, x)
    ensures r.items == s.items && r.newItem == s.newItem && r.filter == s.filter
  {
    s.(editing := EditingState(Some(item.id), item.name))
  }

  /** Typing in the edit field changes the draft only; the edited item stays the same. */
  function ChangeDraft(s: State, text: string): (r: State)
    ensures r.editing.text == text && r.editing.id == s.editing.id
    ensures forall x: Item :: InEditMode(r, x) <==> InEditMode(s, x)
    ensures r.items == s.items && r.newItem == s.newItem && r.filter == s.filter
  {
    s.(editing := s.editing.(text := text))
  }

  /** Cancelling closes the edit slot and drops the draft; no row stays in edit mode. */
  function CancelEdit(s: State): (r: State)
    ensures r.editing.id.None? && r.editing.text == ""
    ensures forall x: Item :: !InEditMode(r, x)
    ensures r.items == s.items && r.newItem == s.newItem && r.filter == s.filter
  {
    s.(editing := NotEditing)
  }

  /** The rows on screen. */
  function Visible(s: State): (r: seq<Item>)
    ensures |r| <= |s.items|
    ensures forall x :: x in r <==> x in s.items && Shows(s.filter, x)
    ensures s.filter == All ==> r == s.items
  {
    FilteredItems(s.filter, s.items)
  }

  /** The footer's counts: items on screen out of all items. */
  datatype Counts = Counts(visible: nat, total: nat)

  /** The footer: absent for an empty list, otherwise the visible and total counts. */
  function Footer(s: State): (r: Option<Counts>)
    ensures r.Some? <==> |s.items| > 0
    ensures r.Some? ==> r.value.total == |s.items| && r.value.visible == |Visible(s)|
    ensures r.Some? ==> r.value.visible <= r.value.total
  {
    if |s.items| > 0 then Some(Counts(|Visible(s)|, |s.items|)) else None
  }

  /** The page mounts with an empty list, so no rows and no footer, an empty add field,
      the `all` filter and no row in edit mode. */
  lemma InitialView()
    ensures Visible(Initial) == [] && Footer(Initial) == None
    ensures Initial.newItem == "" && Initial.filter == All
    ensures forall x: Item :: !InEditMode(Initial, x)
  {
  }

  /** Under `all` the footer's two counts agree, and the `active` and `completed` counts
      always add up to the total. */
  lemma FooterCounts(s: State)
    requires |s.items| > 0
    ensures Footer(s.(filter := All)).value.visible == Footer(s).value.total
    ensures Footer(s.(filter := Active)).value.visible
            + Footer(s.(filter := Completed)).value.visible == Footer(s).value.total
  {
    FilterPartition(s.items);
  }

  /** With distinct ids, at most one visible row is in edit mode. */
  lemma AtMostOneRowEditing(s: State)
    requires DistinctIds(s.items)
    ensures forall i, j :: 0 <= i < j < |Visible(s)| ==>
              !(InEditMode(s, Visible(s)[i]) && InEditMode(s, Visible(s)[j]))
  {
    FilterDistinct(s.filter, s.items);
  }

  /** A snapshot discards whatever list was there before: a later snapshot wins entirely,
      and the result does not depend on the old list. */
  lemma SnapshotReplaces(s: State, old1: seq<Item>, docs1: seq<Doc>, docs2: seq<Doc>)
    ensures OnSnapshot(OnSnapshot(s, docs1), docs2) == OnSnapshot(s, docs2)
    ensures OnSnapshot(s.(items := old1), docs2) == OnSnapshot(s, docs2)
  {
  }

  /** Toggling a row, letting the store merge the update, and toggling the refreshed row
      again returns the item to where it started. */
  lemma DoubleToggle(s: State, item: Item)
    ensures var once := Merge(item, ToggleComplete(s, item.id, item.completed).effects[0].patch);
            var twice := Merge(once, ToggleComplete(s, once.id, once.completed).effects[0].patch);
            once.completed != item.completed && twice == item
  {
  }

  /** Starting an edit, typing any draft and cancelling leaves the list (and so the item's
      name) as it was, with the edit slot idle. */
  lemma EditThenCancel(s: State, item: Item, draft: string)
    ensures CancelEdit(ChangeDraft(StartEdit(s, item), draft)) == s.(editing := NotEditing)
  {
  }

  /** Opening an edit and saving it unchanged renames the item to its own trimmed name,
      unless that name is blank. */
  lemma StartThenSave(s: State, item: Item)
    ensures var r := SaveEdit(StartEdit(s, item), item.id);
            && (r.effects == [] <==> AllWhitespace(item.name))
            && (r.effects != [] ==> r.effects == [Update(item.id, SetName(Trim(item.name)))])
  {
  }

  /** Adding "Buy milk" creates exactly one open item named "Buy milk". */
  lemma AddBuyMilk(s: State, now: Timestamp)
    requires s.newItem == "Buy milk"
    ensures AddItem(s, now).effects == [Create("Buy milk", false, now)]
    ensures AddItem(s, now).state == s.(newItem := "")
  {
    TrimOfTrimmed("Buy milk");
  }

  /** Adding an input of only spaces and tabs does nothing at all. */
  lemma AddBlank(s: State, now: Timestamp)
    requires s.newItem == "  \t "
    ensures AddItem(s, now) == Step(s, [])
  {
    assert AllWhitespace(s.newItem);
  }
}
