# To-do list controller — a Dafny model

This project models the controller of a browser to-do list page (`src/app/page.tsx`). The
page holds four pieces of view state: the item list, the text of the "new item" field, the
selected filter (`all`, `active`, `completed`), and an edit slot `{id, text}` naming the item
being renamed. User actions call a remote document store. The list itself is only ever
replaced by the store's live query snapshots.

The model treats each handler as a pure transition. It takes the view state (`Todo.State`)
and returns a `Todo.Step`: the new state plus the store operations the handler issued, as
`Create`, `Update` or `Delete` effects. The page stamps each new item with the client's
clock (`new Date()`), which the model takes as a parameter. The store's own work is not
modelled. That means assigning ids, converting the stamped time to its timestamp type,
ordering by creation time descending, and delivering snapshots. A snapshot is an input: the sequence of documents, in the order delivered.

Files:

- `text.dfy` (`Text`): whitespace and `trim`. The result is characterised as the unique
  slice of the input that has whitespace-only ends and no surrounding whitespace.
- `todo.dfy` (`Todo`): items, filter, edit slot, view state, effects, snapshot documents,
  and the store's field merge for updates.
- `filtering.dfy` (`Filtering`): the `filteredItems` derivation and its partition,
  order and idempotence lemmas.
- `controller.dfy` (`Controller`): one transition per handler, plus the footer and
  edit-mode rendering conditions.
- `session.dfy` (`Session`): routing of events to handlers, and whole-session properties
  over any sequence of events.

## Model

| member | source | states |
|---|---|---|
| Text.Trim | src/app/page.tsx:62-64 | the trimmed text is a slice of the input with only whitespace cut from either end; it has no leading or trailing whitespace; it is empty exactly when the input is all whitespace |
| Text.TrimUnique | src/app/page.tsx:62-64 | any way of cutting the input into whitespace, a trimmed middle and whitespace yields exactly `Trim`'s result, so the contract determines `trim` completely |
| Text.TrimOfTrimmed | src/app/page.tsx:99-100 | text with no surrounding whitespace is returned unchanged |
| Text.TrimIdempotent | src/app/page.tsx:99-100 | trimming an already trimmed text changes nothing, so checking `trim() !== ''` and then sending `trim()` agree |
| Filtering.KeepWhere | src/app/page.tsx:114-116 | `items.filter` on the completed flag keeps exactly the items with the wanted flag, and never lengthens the list |
| Filtering.FilteredItems | src/app/page.tsx:111-120 | the view contains exactly the list's items that the selected filter shows, and is never longer than the list; under `all` it is the list itself |
| Filtering.KeepWhereAppend | src/app/page.tsx:114-116 | filtering distributes over concatenation: kept items stay in their relative order |
| Filtering.KeepWhereMultiset | src/app/page.tsx:114-116 | every copy of a kept item survives and every other item disappears |
| Filtering.KeepWhereSubsequence | src/app/page.tsx:114-116 | the filtered list is a subsequence of the list |
| Filtering.KeepWhereIdempotent | src/app/page.tsx:114-116 | filtering the filtered list again changes nothing |
| Filtering.KeepWhereDistinct | src/app/page.tsx:114-116 | filtering a list with distinct ids gives a list with distinct ids |
| Filtering.FilterMultiset | src/app/page.tsx:111-120 | for every filter, each shown item keeps its multiplicity and every hidden item has none; `all` hides nothing |
| Filtering.FilterPreservesOrder | src/app/page.tsx:111-120 | every filter's view lists its items in the list's order |
| Filtering.FilterPartition | src/app/page.tsx:112-119 | the `active` and `completed` views split the list: their multisets add up to the list's, so their lengths add up to the `all` view's length |
| Filtering.FilterIdempotent | src/app/page.tsx:111-120 | applying the selected filter to its own view leaves the view unchanged |
| Filtering.FilterDistinct | src/app/page.tsx:111-120 | the view of a list with distinct ids has distinct ids |
| Todo.Merge | src/app/page.tsx:94 | an update changes only the field it names; the id and creation time are kept |
| Controller.InitialView | src/app/page.tsx:52-55 | the page mounts with no rows, no footer, an empty add field, filter `all` and no row in edit mode |
| Controller.ItemOf | src/app/page.tsx:80-85 | the item pushed for a document carries that document's id and its name, completed flag and creation time |
| Controller.InEditMode | src/app/page.tsx:155 | a row renders as an edit field only when the edit slot is open on that row's id; an idle slot puts no row in edit mode |
| Controller.Visible | src/app/page.tsx:153 | the rendered rows are exactly the list's items the selected filter shows, never more rows than items, and every item under `all` |
| Controller.SetNewItem | src/app/page.tsx:132 | typing in the add field replaces its text and changes nothing else |
| Controller.SetFilter | src/app/page.tsx:147-149 | a filter button selects that filter and changes nothing else |
| Controller.AddItem | src/app/page.tsx:60-70 | a blank input is a no-op with no effect; otherwise exactly one Create is issued with the trimmed, non-blank name, `completed` false and the given time, and the input is cleared; the list, filter and edit slot never change |
| Controller.OnSnapshot | src/app/page.tsx:75-87 | the list becomes the delivered documents one-for-one, in delivered order, with each document's id and fields; input, filter and edit slot are kept |
| Controller.ToggleComplete | src/app/page.tsx:93-95 | exactly one Update is issued, for the given id, carrying the negation of the shown flag; the local state is not touched |
| Controller.SaveEdit | src/app/page.tsx:98-103 | a blank draft issues nothing and keeps the edit slot as it is; otherwise exactly one Update renames the item to the trimmed, non-blank draft and the edit slot becomes idle; list, input and filter never change |
| Controller.DeleteItem | src/app/page.tsx:106-108 | exactly one Delete is issued for the given id; the local state is not touched |
| Controller.StartEdit | src/app/page.tsx:182 | the edit slot holds the clicked item's id and name, so that item's row, and no row with another id, is in edit mode; any previous edit is dropped and nothing else changes |
| Controller.ChangeDraft | src/app/page.tsx:160 | typing changes only the draft: the same rows stay in edit mode |
| Controller.CancelEdit | src/app/page.tsx:166 | the edit slot becomes idle with an empty draft, no row is in edit mode, and the list is kept |
| Controller.Footer | src/app/page.tsx:195-199 | the footer is shown exactly when the list is non-empty; it reports the view's length and the list's length, the first never exceeding the second |
| Controller.FooterCounts | src/app/page.tsx:197 | under `all` the two counts agree; the `active` and `completed` counts add up to the total |
| Controller.AtMostOneRowEditing | src/app/page.tsx:155 | when ids are distinct, no two visible rows are in edit mode at once |
| Controller.SnapshotReplaces | src/app/page.tsx:87 | a snapshot's result does not depend on the list it replaces: a later snapshot overrides an earlier one entirely |
| Controller.DoubleToggle | src/app/page.tsx:93-95 | toggling, merging the update into the item, and toggling the refreshed item again restores the original item |
| Controller.EditThenCancel | src/app/page.tsx:160-166 | starting an edit, typing any draft and cancelling leaves the list and every item name as they were, with the edit slot idle |
| Controller.StartThenSave | src/app/page.tsx:98-103 | saving a just-opened edit renames the item to its own trimmed name, and issues nothing when that name is blank |
| Controller.AddBuyMilk | src/app/page.tsx:60-70 | adding "Buy milk" issues exactly Create("Buy milk", not completed) and clears the input |
| Controller.AddBlank | src/app/page.tsx:62 | adding a spaces-and-tab input changes nothing and issues nothing |
| Session.Dispatch | src/app/page.tsx:129-185 | every event issues at most one store operation, and every issued operation is well formed; only add, save, toggle and delete issue one, toggle and delete always do; only a snapshot changes the list |
| Session.RunEffectsWellFormed | src/app/page.tsx:60-103 | over any sequence of events, every Create carries a non-blank trimmed name and `completed` false, and every rename carries a non-blank trimmed name |
| Session.RunEffectCount | src/app/page.tsx:57-108 | a session issues at most one store operation per event |
| Session.ItemsChangeOnlyBySnapshot | src/app/page.tsx:52-108 | a session with no snapshot never changes the local list, whatever the user does |
| Session.LastSnapshotWins | src/app/page.tsx:75-87 | after the last snapshot, the list is exactly that snapshot's documents, whatever came before and whatever the user did since |
| Session.EditCancelSession | src/app/page.tsx:160-182 | edit, type, cancel issues no operation and leaves the state as before apart from an idle edit slot |
| Session.SaveBlankSession | src/app/page.tsx:98-103 | edit, type a blank draft, save issues no operation, and the edit stays open with that draft |

Notes on what the source does and does not do:

- The page has no delete confirmation, no loading indicator and no error callback on the
  subscription (`src/app/page.tsx:75,185`). A click on the bin issues the delete at once.
- A snapshot copies each document's fields unchecked (`src/app/page.tsx:79-84`). The model
  assumes only that each delivered document has a string `name` and a boolean `completed`.
  It assumes nothing about the content of a delivered name (it may be blank or untrimmed).
  It proves only that the page itself never sends a blank or untrimmed name.
- Saving uses the id of the row whose button or Enter key fired it (`src/app/page.tsx:161,165`),
  not the edit slot's id. `Controller.SaveEdit` takes that id as a parameter. A row is in
  edit mode only when its id equals the slot's id, so on screen the two are always the same.
- `Session.Run` accepts any sequence of events, which is a superset of what the page can
  produce. For example, it allows a draft edit and a save while the edit slot is idle, even
  though the page renders no edit field or save button then (`src/app/page.tsx:155-167`).
  Every `Session` lemma therefore also holds for the page's actual event sequences. The
  claim that the two ids agree on screen is not itself stated as a lemma.

## Left out

- `src/lib/firebase.ts` is not part of this model. It only reads six configuration values
  from the environment and initialises the store client once, through library calls.
- The store itself is not modelled. That covers `addDoc`, `updateDoc`, `deleteDoc`,
  `onSnapshot`, `query` and `orderBy`. Each call appears only as an effect, and
  `Todo.Merge` covers only the field merge of an update. Id assignment, the conversion of
  the page-supplied creation time to a store timestamp, and the newest-first order are the
  store's. A snapshot is taken in the order it is delivered.
- `async`/`await` is not modelled: a rejected store call, which in the source skips the
  state reset that follows it, and events arriving while a call is pending. Each handler
  is modelled as if its store call succeeded before the next event.
- Unsubscribing on unmount (`src/app/page.tsx:89`) and any interleaving with other clients
  are left out, because they are runtime and concurrency concerns.
- The clock: `new Date()` in the add handler becomes the `now` parameter. Timestamps are
  opaque integers that the controller carries and never interprets.
- JSX markup, CSS classes and the SVG icon components (`src/app/page.tsx:28-47`) are left
  out. The only rendering facts kept are the edit-mode condition and the footer.
- Text.IsWhitespace: the whitespace set is written out, using Unicode category Zs as of
  Unicode 15. Every property of `Trim` is stated only in terms of this predicate, so the
  properties do not depend on the exact set.
- Strings are sequences of Unicode scalar values, while JavaScript strings are sequences of
  UTF-16 code units. `trim` behaves the same on both, because every character it strips is
  a single code unit. Strings containing lone surrogates cannot be represented in the model.
- Controller.OnSnapshot: documents whose fields lack the declared types are not modelled.
  In the source, a document with no `name` gives an item whose name is `undefined`.
  Opening an edit on it puts `undefined` in the draft (`src/app/page.tsx:182`), and saving
  it then fails in `editingItem.text.trim()` (`src/app/page.tsx:99`) with the edit left
  open. A document with no `completed` makes a toggle send `true` (`src/app/page.tsx:94`).
  `Todo.DocData` gives `name` the type `string` and `completed` the type `bool`, so none
  of these paths, and not that rejection, are covered.
- Session.Run: it has no contract of its own. Its properties are the `Session` lemmas.
