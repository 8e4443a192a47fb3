/** The filtered view: the memoised derivation of the visible items from the list and the
    selected filter. */
module Filtering {
  import opened Todo

  /** Whether an item belongs in the view under filter `f`. */
  predicate Shows(f: FilterType, item: Item) {
    match f
    case All => true
    case Active => !item.completed
    case Completed => item.completed
  }

  /** `r` is `s` with some elements left out, the rest kept in their original order. */
  ghost predicate IsSubsequence<T>(r: seq<T>, s: seq<T>)
    decreases |s|
  {
    if r == [] then true
    else if s == [] then false
    else (r[0] == s[0] && IsSubsequence(r[1..], s[1..])) || IsSubsequence(r, s[1..])
  }

  /** The items whose `completed` flag equals `done`, as `items.filter(...)` computes them. */
  function KeepWhere(items: seq<Item>, done: bool): (r: seq<Item>)
    ensures |r| <= |items|
    ensures forall x :: x in r <==> x in items && x.completed == done
  {
    if items == [] then []
    else (if items[0].completed == done then [items[0]] else []) + KeepWhere(items[1..], done)
  }

  /** The visible items under filter `f`: exactly the items `f` shows. */
  function FilteredItems(f: FilterType, items: seq<Item>): (r: seq<Item>)
    ensures |r| <= |items|
    ensures f == All ==> r == items
    ensures forall x :: x in r <==> x in items && Shows(f, x)
  {
    match f
    case Active => KeepWhere(items, false)
    case Completed => KeepWhere(items, true)
    case All => items
  }

  /** Filtering distributes over concatenation, so it keeps every item's position relative
      to the others. */
  lemma {:induction false} KeepWhereAppend(a: seq<Item>, b: seq<Item>, done: bool)
    ensures KeepWhere(a + b, done) == KeepWhere(a, done) + KeepWhere(b, done)
  {
    if a == [] {
      assert a + b == b;
    } else {
      assert (a + b)[1..] == a[1..] + b;
      KeepWhereAppend(a[1..], b, done);
    }
  }

  /** Every copy of an item with the wanted flag survives filtering, and no other item does. */
  lemma {:induction false} KeepWhereMultiset(items: seq<Item>, done: bool)
    ensures forall x :: multiset(KeepWhere(items, done))[x]
                        == if x.completed == done then multiset(items)[x] else 0
  {
    if items != [] {
      KeepWhereMultiset(items[1..], done);
      assert items == [items[0]] + items[1..];
    }
  }

  /** The kept items appear in `items` in the same relative order. */
  lemma {:induction false} KeepWhereSubsequence(items: seq<Item>, done: bool)
    ensures IsSubsequence(KeepWhere(items, done), items)
  {
    if items != [] {
      KeepWhereSubsequence(items[1..], done);
      var r := KeepWhere(items, done);
      if items[0].completed == done {
        assert r[0] == items[0] && r[1..] == KeepWhere(items[1..], done);
      } else {
        assert r == KeepWhere(items[1..], done);
      }
    }
  }

  /** Dropping the first item keeps ids distinct. */
  lemma DistinctIdsTail(items: seq<Item>)
    requires items != [] && DistinctIds(items)
    ensures DistinctIds(items[1..])
  {
    var rest := items[1..];
    forall i, j | 0 <= i < j < |rest|
      ensures rest[i].id != rest[j].id
    {
      assert rest[i] == items[i + 1] && rest[j] == items[j + 1];
    }
  }

  /** Putting an item with a fresh id in front keeps ids distinct. */
  lemma DistinctIdsCons(x: Item, tail: seq<Item>)
    requires DistinctIds(tail)
    requires forall y :: y in tail ==> y.id != x.id
    ensures DistinctIds([x] + tail)
  {
    var r := [x] + tail;
    forall i, j | 0 <= i < j < |r|
      ensures r[i].id != r[j].id
    {
      assert r[j] == tail[j - 1];
      if i > 0 {
        assert r[i] == tail[i - 1];
      }
    }
  }

  /** Filtering a list without repeated ids yields a list without repeated ids. */
  lemma {:induction false} KeepWhereDistinct(items: seq<Item>, done: bool)
    requires DistinctIds(items)
    ensures DistinctIds(KeepWhere(items, done))
  {
    if items != [] {
      var rest := items[1..];
      DistinctIdsTail(items);
      KeepWhereDistinct(rest, done);
      var tail := KeepWhere(rest, done);
      if items[0].completed == done {
        forall y | y in tail
          ensures y.id != items[0].id
        {
          var k :| 0 <= k < |rest| && rest[k] == y;
          assert rest[k] == items[k + 1];
        }
        DistinctIdsCons(items[0], tail);
        assert KeepWhere(items, done) == [items[0]] + tail;
      } else {
        assert KeepWhere(items, done) == tail;
      }
    }
  }

  /** Under every filter, each item the filter shows keeps all its copies and every other
      item disappears. */
  lemma FilterMultiset(f: FilterType, items: seq<Item>)
    ensures forall x :: multiset(FilteredItems(f, items))[x]
                        == if Shows(f, x) then multiset(items)[x] else 0
  {
    match f
    case Active => KeepWhereMultiset(items, false);
    case Completed => KeepWhereMultiset(items, true);
    case All =>
  }

  /** Every filter keeps the list's relative order. */
  lemma FilterPreservesOrder(f: FilterType, items: seq<Item>)
    ensures IsSubsequence(FilteredItems(f, items), items)
  {
    match f
    case Active => KeepWhereSubsequence(items, false);
    case Completed => KeepWhereSubsequence(items, true);
    case All => SubsequenceReflexive(items);
  }

  lemma {:induction false} SubsequenceReflexive<T>(s: seq<T>)
    ensures IsSubsequence(s, s)
  {
    if s != [] {
      SubsequenceReflexive(s[1..]);
    }
  }

  /** `active` and `completed` split the list: each item copy lands in exactly one of them,
      so their lengths add up to the whole list's. */
  lemma FilterPartition(items: seq<Item>)
    ensures multiset(FilteredItems(Active, items)) + multiset(FilteredItems(Completed, items))
            == multiset(items)
    ensures |FilteredItems(Active, items)| + |FilteredItems(Completed, items)|
            == |FilteredItems(All, items)|
  {
    KeepWhereMultiset(items, false);
    KeepWhereMultiset(items, true);
    var a := multiset(FilteredItems(Active, items));
    var c := multiset(FilteredItems(Completed, items));
    assert a + c == multiset(items);
    assert |a + c| == |a| + |c|;
  }

  /** Applying the same filter to its own output changes nothing. */
  lemma {:induction false} KeepWhereIdempotent(items: seq<Item>, done: bool)
    ensures KeepWhere(KeepWhere(items, done), done) == KeepWhere(items, done)
  {
    if items != [] {
      KeepWhereIdempotent(items[1..], done);
      var tail := KeepWhere(items[1..], done);
      if items[0].completed == done {
        KeepWhereAppend([items[0]], tail, done);
      } else {
        assert KeepWhere(items, done) == tail;
      }
    }
  }

  /** Re-selecting the current filter leaves the view as it is. */
  lemma FilterIdempotent(f: FilterType, items: seq<Item>)
    ensures FilteredItems(f, FilteredItems(f, items)) == FilteredItems(f, items)
  {
    match f
    case Active => KeepWhereIdempotent(items, false);
    case Completed => KeepWhereIdempotent(items, true);
    case All =>
  }

  /** The view of a list without repeated ids has no repeated ids. */
  lemma FilterDistinct(f: FilterType, items: seq<Item>)
    requires DistinctIds(items)
    ensures DistinctIds(FilteredItems(f, items))
  {
    match f
    case Active => KeepWhereDistinct(items, false);
    case Completed => KeepWhereDistinct(items, true);
    case All =>
  }
}
