/** Embedding responses as every provider normalises them. */
module Embeddings {
  type Vector = seq<real>

  datatype Item = Item(index: int, embedding: Vector)

  datatype Response = Response(model: string, data: seq<Item>)

  function Insert(x: Item, items: seq<Item>): (r: seq<Item>)
    ensures |r| == |items| + 1
    ensures forall y :: y in r <==> y == x || y in items
  {
    if items == [] || items[|items| - 1].index <= x.index then items + [x]
    else Insert(x, items[..|items| - 1]) + [items[|items| - 1]]
  }

  /** sorted(items, key=index); items of equal index keep their order. */
  function SortedByIndex(items: seq<Item>): (r: seq<Item>)
    ensures |r| == |items|
    ensures forall y :: y in r <==> y in items
  {
    if items == [] then [] else Insert(items[|items| - 1], SortedByIndex(items[..|items| - 1]))
  }

  function EmbeddingsOf(items: seq<Item>): seq<Vector> {
    seq(|items|, i requires 0 <= i < |items| => items[i].embedding)
  }

  function Vectors(r: Response): seq<Vector> {
    EmbeddingsOf(SortedByIndex(r.data))
  }

  // --- The sort ------------------------------------------------------

  ghost predicate Ascending(items: seq<Item>) {
    forall i, j | 0 <= i < j < |items| :: items[i].index <= items[j].index
  }

  function WithIndex(items: seq<Item>, k: int): seq<Item> {
    if items == [] then []
    else WithIndex(items[..|items| - 1], k) + if items[|items| - 1].index == k then [items[|items| - 1]] else []
  }

  lemma {:induction false} WithoutIndex(items: seq<Item>, k: int)
    requires forall x | x in items :: x.index != k
    ensures WithIndex(items, k) == []
  {
    if items != [] {
      WithoutIndex(items[..|items| - 1], k);
    }
  }

  lemma {:induction false} InsertAscending(x: Item, items: seq<Item>)
    requires Ascending(items)
    ensures Ascending(Insert(x, items))
  {
    if items != [] && items[|items| - 1].index > x.index {
      var front, last := items[..|items| - 1], items[|items| - 1];
      InsertAscending(x, front);
      var r := Insert(x, front);
      forall i | 0 <= i < |r|
        ensures r[i].index <= last.index
      {
        assert r[i] in r;
      }
    }
  }

  lemma WithIndexSnoc(items: seq<Item>, last: Item, k: int)
    ensures WithIndex(items + [last], k) == WithIndex(items, k) + if last.index == k then [last] else []
  {
    assert (items + [last])[..|items|] == items;
  }

  lemma {:induction false} InsertStable(x: Item, items: seq<Item>, k: int)
    ensures WithIndex(Insert(x, items), k) == WithIndex(items, k) + if x.index == k then [x] else []
  {
    hide WithIndex;
    WithIndexSnoc(items, x, k);
    if items != [] && items[|items| - 1].index > x.index {
      var front, last := items[..|items| - 1], items[|items| - 1];
      InsertStable(x, front, k);
      WithIndexSnoc(Insert(x, front), last, k);
      WithIndexSnoc(front, last, k);
      assert items == front + [last];
    }
  }

  /** The sort is ascending and stable: the items of each index stay in their order. */
  lemma {:induction false} SortIsStable(items: seq<Item>, k: int)
    ensures Ascending(SortedByIndex(items))
    ensures WithIndex(SortedByIndex(items), k) == WithIndex(items, k)
  {
    if items != [] {
      SortIsStable(items[..|items| - 1], k);
      InsertAscending(items[|items| - 1], SortedByIndex(items[..|items| - 1]));
      InsertStable(items[|items| - 1], SortedByIndex(items[..|items| - 1]), k);
    }
  }

  // --- Answers that name each index once ------------------------------

  ghost predicate DistinctIndices(items: seq<Item>) {
    forall i, j | 0 <= i < j < |items| :: items[i].index != items[j].index
  }

  /** Each index of 0 .. n - 1 is answered once, in any order. */
  ghost predicate Complete(items: seq<Item>, n: nat) {
    && |items| == n && DistinctIndices(items)
    && forall x | x in items :: 0 <= x.index < n
  }

  lemma {:induction false} InsertDistinct(x: Item, items: seq<Item>)
    requires DistinctIndices(items) && forall y | y in items :: y.index != x.index
    ensures DistinctIndices(Insert(x, items))
  {
    if items != [] && items[|items| - 1].index > x.index {
      var front, last := items[..|items| - 1], items[|items| - 1];
      InsertDistinct(x, front);
      var r := Insert(x, front);
      forall i | 0 <= i < |r|
        ensures r[i].index != last.index
      {
        assert r[i] in r;
        if r[i] in front {
          var j :| 0 <= j < |front| && front[j] == r[i];
          assert items[j].index != items[|items| - 1].index;
        }
      }
    }
  }

  lemma {:induction false} SortDistinct(items: seq<Item>)
    requires DistinctIndices(items)
    ensures DistinctIndices(SortedByIndex(items))
  {
    if items != [] {
      var front := items[..|items| - 1];
      SortDistinct(front);
      InsertDistinct(items[|items| - 1], SortedByIndex(front));
    }
  }

  lemma {:induction false} Spread(items: seq<Item>, i: nat, j: nat)
    requires Ascending(items) && DistinctIndices(items) && i <= j < |items|
    ensures items[j].index - items[i].index >= j - i
    decreases j
  {
    if i < j {
      Spread(items, i, j - 1);
      assert items[j - 1].index != items[j].index;
    }
  }

  lemma DistinctAscendingFits(items: seq<Item>, n: nat, i: nat)
    requires Ascending(items) && DistinctIndices(items) && |items| == n && i < n
    requires 0 <= items[0].index && items[n - 1].index < n
    ensures items[i].index == i
  {
    Spread(items, 0, i);
    Spread(items, i, n - 1);
  }

  /** Sorting a complete answer puts the item of index i at position i. */
  lemma SortPlaces(items: seq<Item>, n: nat, i: nat)
    requires Complete(items, n) && i < n
    ensures SortedByIndex(items)[i].index == i
  {
    var r := SortedByIndex(items);
    SortIsStable(items, 0);
    SortDistinct(items);
    hide SortedByIndex, DistinctIndices, Ascending, WithIndex;
    assert r[0] in r && r[n - 1] in r;
    DistinctAscendingFits(r, n, i);
  }

  /** The vectors of a complete answer do not depend on its order. */
  lemma VectorsOfComplete(r: Response, want: seq<Vector>)
    requires Complete(r.data, |want|)
    requires forall x | x in r.data :: x.embedding == want[x.index]
    ensures Vectors(r) == want
  {
    var sorted := SortedByIndex(r.data);
    forall i | 0 <= i < |want|
      ensures sorted[i].embedding == want[i]
    {
      SortPlaces(r.data, |want|, i);
      assert sorted[i] in sorted;
    }
  }

  /** A complete answer has an item for every index. */
  lemma CompleteHas(items: seq<Item>, n: nat, i: nat)
    requires Complete(items, n) && i < n
    ensures exists x :: x in items && x.index == i
  {
    SortPlaces(items, n, i);
    var x := SortedByIndex(items)[i];
    assert x in SortedByIndex(items) && x in items;
  }
}
