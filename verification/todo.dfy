/** The controller's data: to-do items, the edit slot, the filter, the view state, and the
    store operations it issues, recorded as effects instead of being performed. */
module Todo {

  /** A creation time. The page stamps it from the client clock when it adds an item; the
      store converts it to its own timestamp type and orders by it. The controller carries it
      and never interprets it. */
  type Timestamp = int

  datatype Option<T> = None | Some(value: T)

  /** One to-do item as held in the local list. `id` is assigned by the store. */
  datatype Item = Item(id: string, name: string, completed: bool, createdAt: Timestamp)

  datatype FilterType = All | Active | Completed

  /** The edit slot: `id` is the item being edited (`None` when idle), `text` its draft. */
  datatype EditingState = EditingState(id: Option<string>, text: string)

  /** The idle edit slot, `{id: null, text: ''}`. */
  const NotEditing := EditingState(None, "")

  /** The component's view state. */
  datatype State = State(items: seq<Item>, newItem: string, filter: FilterType, editing: EditingState)

  /** The state the component mounts with: no items, empty input, filter `all`, idle edit slot. */
  const Initial := State([], "", All, NotEditing)

  /** The fields an update merges into a stored document. */
  datatype Patch = SetCompleted(completed: bool) | SetName(name: string)

  /** A store operation issued by the controller. */
  datatype Effect =
    | Create(name: string, completed: bool, createdAt: Timestamp)
    | Update(id: string, patch: Patch)
    | Delete(id: string)

  /** The outcome of a user action: the new view state and the store operations issued, in order. */
  datatype Step = Step(state: State, effects: seq<Effect>)

  /** The fields of a stored document, as `doc.data()` returns them. */
  datatype DocData = DocData(name: string, completed: bool, createdAt: Timestamp)

  /** A document as delivered in a query snapshot. */
  datatype Doc = Doc(id: string, data: DocData)

  /** The store's merge of an update into a document: only the patched field changes. */
  function Merge(item: Item, patch: Patch): (r: Item)
    ensures r.id == item.id && r.createdAt == item.createdAt
    ensures patch.SetCompleted? ==> r.completed == patch.completed && r.name == item.name
    ensures patch.SetName? ==> r.name == patch.name && r.completed == item.completed
  {
    match patch
    case SetCompleted(c) => item.(completed := c)
    case SetName(n) => item.(name := n)
  }

  /** No two items of the list share an id. */
  ghost predicate DistinctIds(items: seq<Item>) {
    forall i, j :: 0 <= i < j < |items| ==> items[i].id != items[j].id
  }
}
