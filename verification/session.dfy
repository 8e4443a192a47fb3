/** A session of the to-do page: a sequence of user actions and snapshot deliveries, each
    handled by the matching controller transition, with the store operations collected in
    order. */
module Session {
  import opened Text
  import opened Todo
  import opened Filtering
  import opened Controller

  /** Everything the page reacts to. Row events carry what the clicked row shows. */
  datatype Event =
    | TypeNewItem(text: string)
    | SubmitNew(now: Timestamp)
    | SelectFilter(filter: FilterType)
    | Snapshot(docs: seq<Doc>)
    | ClickToggle(id: string, completed: bool)
    | ClickEdit(item: Item)
    | TypeDraft(text: string)
    | SaveDraft(id: string)
    | CancelDraft
    | ClickDelete(id: string)

  /** Routes one event to its handler; handlers that do not call the store emit nothing. */
  function Dispatch(s: State, ev: Event): (r: Step)
    ensures !ev.Snapshot? ==> r.state.items == s.items
    ensures |r.effects| <= 1
    ensures forall e :: e in r.effects ==> WellFormed(e)
    ensures (ev.SubmitNew? || ev.ClickToggle? || ev.SaveDraft? || ev.ClickDelete?) || r.effects == []
    ensures ev.ClickToggle? || ev.ClickDelete? ==> |r.effects| == 1
  {
    match ev
    case TypeNewItem(text) => Step(SetNewItem(s, text), [])
    case SubmitNew(now) => AddItem(s, now)
    case SelectFilter(f) => Step(SetFilter(s, f), [])
    case Snapshot(docs) => Step(OnSnapshot(s, docs), [])
    case ClickToggle(id, completed) => ToggleComplete(s, id, completed)
    case ClickEdit(item) => Step(StartEdit(s, item), [])
    case TypeDraft(text) => Step(ChangeDraft(s, text), [])
    case SaveDraft(id) => SaveEdit(s, id)
    case CancelDraft => Step(CancelEdit(s), [])
    case ClickDelete(id) => DeleteItem(s, id)
  }

  /** What the controller guarantees of every store operation it issues: a created item is
      open and named validly, and a rename carries a valid name. */
  predicate WellFormed(e: Effect) {
    match e
    case Create(name, completed, _) => ValidName(name) && !completed
    case Update(_, patch) => patch.SetName? ==> ValidName(patch.name)
    case Delete(_) => true
  }

  /** Handles the events in order, threading the state and concatenating the effects. */
  function Run(s: State, evs: seq<Event>): (r: Step)
    decreases |evs|
  {
    if evs == [] then Step(s, [])
    else
      var first := Dispatch(s, evs[0]);
      var rest := Run(first.state, evs[1..]);
      Step(rest.state, first.effects + rest.effects)
  }

  /** No session ever sends the store a blank or untrimmed name, or creates a completed item. */
  lemma {:induction false} RunEffectsWellFormed(s: State, evs: seq<Event>)
    ensures forall e :: e in Run(s, evs).effects ==> WellFormed(e)
    decreases |evs|
  {
    if evs != [] {
      RunEffectsWellFormed(Dispatch(s, evs[0]).state, evs[1..]);
    }
  }

  /** Each event issues at most one store operation. */
  lemma {:induction false} RunEffectCount(s: State, evs: seq<Event>)
    ensures |Run(s, evs).effects| <= |evs|
    decreases |evs|
  {
    if evs != [] {
      RunEffectCount(Dispatch(s, evs[0]).state, evs[1..]);
    }
  }

  /** The local list is never changed by the page's own actions: without a snapshot it
      stays exactly as it was. */
  lemma {:induction false} ItemsChangeOnlyBySnapshot(s: State, evs: seq<Event>)
    requires forall k :: 0 <= k < |evs| ==> !evs[k].Snapshot?
    ensures Run(s, evs).state.items == s.items
    decreases |evs|
  {
    if evs != [] {
      ItemsChangeOnlyBySnapshot(Dispatch(s, evs[0]).state, evs[1..]);
    }
  }

  /** The last snapshot wins: after it, the local list is exactly the delivered documents,
      whatever came before and whatever the user did since. */
  lemma {:induction false} LastSnapshotWins(s: State, before: seq<Event>, docs: seq<Doc>, after: seq<Event>)
    requires forall k :: 0 <= k < |after| ==> !after[k].Snapshot?
    ensures var items := Run(s, before + [Snapshot(docs)] + after).state.items;
            && |items| == |docs|
            && forall i :: 0 <= i < |docs| ==> items[i] == ItemOf(docs[i])
    decreases |before|
  {
    var evs := before + [Snapshot(docs)] + after;
    var first := Dispatch(s, evs[0]);
    var rest := Run(first.state, evs[1..]);
    assert Run(s, evs).state == rest.state;
    if before == [] {
      assert evs[0] == Snapshot(docs) && evs[1..] == after;
      ItemsChangeOnlyBySnapshot(first.state, after);
    } else {
      assert evs[0] == before[0] && evs[1..] == before[1..] + [Snapshot(docs)] + after;
      LastSnapshotWins(first.state, before[1..], docs, after);
    }
  }

  /** Opening an edit, typing, and cancelling issues nothing and leaves every item's name
      as it was. */
  lemma EditCancelSession(s: State, item: Item, draft: string)
    ensures var r := Run(s, [ClickEdit(item), TypeDraft(draft), CancelDraft]);
            && r.effects == []
            && r.state == s.(editing := NotEditing)
  {
    var s1 := StartEdit(s, item);
    var s2 := ChangeDraft(s1, draft);
    assert [ClickEdit(item), TypeDraft(draft), CancelDraft][1..] == [TypeDraft(draft), CancelDraft];
    assert [TypeDraft(draft), CancelDraft][1..] == [CancelDraft];
    assert Run(s2, [CancelDraft]) == Step(CancelEdit(s2), []);
    assert Run(s1, [TypeDraft(draft), CancelDraft]) == Step(CancelEdit(s2), []);
  }

  /** Saving a blank draft issues nothing and keeps the edit open. */
  lemma SaveBlankSession(s: State, item: Item, draft: string)
    requires AllWhitespace(draft)
    ensures var r := Run(s, [ClickEdit(item), TypeDraft(draft), SaveDraft(item.id)]);
            && r.effects == []
            && r.state == s.(editing := EditingState(Some(item.id), draft))
  {
    var s1 := StartEdit(s, item);
    var s2 := ChangeDraft(s1, draft);
    assert [ClickEdit(item), TypeDraft(draft), SaveDraft(item.id)][1..]
           == [TypeDraft(draft), SaveDraft(item.id)];
    assert [TypeDraft(draft), SaveDraft(item.id)][1..] == [SaveDraft(item.id)];
    assert SaveEdit(s2, item.id) == Step(s2, []);
    assert Run(s2, [SaveDraft(item.id)]) == Step(s2, []);
    assert Run(s1, [TypeDraft(draft), SaveDraft(item.id)]) == Step(s2, []);
  }
}
