/** The display order that both the treatment list and the expense-category
    list keep in an integer `order` field: a new entry goes after the largest
    order, and a reordered list is numbered by position, with one update per
    stored entry sent to the store as a batch. */
module Ordering {
  import opened Wrappers
  import opened Lists

  /** The largest order in a non-empty list. */
  function MaxOrder<T>(xs: seq<T>, order: T -> int): (m: int)
    requires xs != []
    ensures forall i :: 0 <= i < |xs| ==> order(xs[i]) <= m
    ensures exists i :: 0 <= i < |xs| && order(xs[i]) == m
  {
    if |xs| == 1 then order(xs[0])
    else
      var rest := MaxOrder(xs[1..], order);
      assert forall i :: 1 <= i < |xs| ==> xs[i] == xs[1..][i - 1];
      if order(xs[0]) >= rest then order(xs[0]) else rest
  }

  /** `(xs.map { $0.order }.max() ?? -1) + 1`. */
  function NextOrder<T>(xs: seq<T>, order: T -> int): int
  {
    if xs == [] then 0 else MaxOrder(xs, order) + 1
  }

  /** The batch a reorder sends: for each entry that has a document id, in
      list order, that id with the entry's position as its new order;
      entries without an id are skipped. */
  function OrderUpdates<T>(xs: seq<T>, id: T -> Option<string>): seq<(string, int)>
    decreases |xs|
  {
    if xs == [] then []
    else
      var k := |xs| - 1;
      OrderUpdates(xs[..k], id) + (if id(xs[k]).Some? then [(id(xs[k]).value, k)] else [])
  }

  /** The reordered list as stored locally: each entry with its position as
      its order (`setOrder` also stamps whatever else the service stamps). */
  function Reindexed<T>(xs: seq<T>, setOrder: (T, int) -> T): (r: seq<T>)
    ensures |r| == |xs|
    ensures forall i :: 0 <= i < |xs| ==> r[i] == setOrder(xs[i], i)
  {
    seq(|xs|, i requires 0 <= i < |xs| => setOrder(xs[i], i))
  }

  /** The loop that builds the batch. */
  method BuildUpdates<T>(xs: seq<T>, id: T -> Option<string>) returns (updates: seq<(string, int)>)
    ensures updates == OrderUpdates(xs, id)
  {
    updates := [];
    var k := 0;
    while k < |xs|
      invariant 0 <= k <= |xs|
      invariant updates == OrderUpdates(xs[..k], id)
    {
      if id(xs[k]).Some? {
        updates := updates + [(id(xs[k]).value, k)];
      }
      assert xs[..k + 1][..k] == xs[..k];
      k := k + 1;
    }
    assert xs[..k] == xs;
  }

  // ---------------------------------------------------------------- lemmas

  /** The next order is above every order in the list, and is 0 for an
      empty list and one above the largest order otherwise. */
  lemma NextOrderFacts<T>(xs: seq<T>, order: T -> int)
    ensures forall i :: 0 <= i < |xs| ==> order(xs[i]) < NextOrder(xs, order)
    ensures xs == [] ==> NextOrder(xs, order) == 0
    ensures xs != [] ==> exists i :: 0 <= i < |xs| && order(xs[i]) + 1 == NextOrder(xs, order)
  {
    if xs != [] {
      var i :| 0 <= i < |xs| && order(xs[i]) == MaxOrder(xs, order);
      assert order(xs[i]) + 1 == NextOrder(xs, order);
    }
  }

  /** The batch holds one update per entry with an id, in list order: each
      pairs such an entry's id with its position, and every such entry has
      one. */
  lemma {:induction false} OrderUpdatesFacts<T>(xs: seq<T>, id: T -> Option<string>)
    ensures var u := OrderUpdates(xs, id);
      && |u| <= |xs|
      && (forall j :: 0 <= j < |u| ==> 0 <= u[j].1 < |xs| && id(xs[u[j].1]) == Some(u[j].0))
      && (forall j, j' :: 0 <= j < j' < |u| ==> u[j].1 < u[j'].1)
      && (forall i :: 0 <= i < |xs| && id(xs[i]).Some? ==> (id(xs[i]).value, i) in u)
  {
    if xs != [] {
      var k := |xs| - 1;
      var init := xs[..k];
      OrderUpdatesFacts(init, id);
      var head := OrderUpdates(init, id);
      var u := OrderUpdates(xs, id);
      forall j | 0 <= j < |head| ensures u[j] == head[j] && u[j].1 < k && id(xs[u[j].1]) == Some(u[j].0) {
        assert xs[head[j].1] == init[head[j].1];
      }
      forall i | 0 <= i < |xs| && id(xs[i]).Some? ensures (id(xs[i]).value, i) in u {
        if i < k {
          assert xs[i] == init[i];
        } else {
          assert u[|u| - 1] == (id(xs[k]).value, k);
        }
      }
    }
  }

  /** When every entry has an id, the batch has exactly one update per
      entry, the `i`-th giving the `i`-th entry order `i`. */
  lemma {:induction false} OrderUpdatesAllStored<T>(xs: seq<T>, id: T -> Option<string>)
    requires forall i :: 0 <= i < |xs| ==> id(xs[i]).Some?
    ensures var u := OrderUpdates(xs, id);
      |u| == |xs| && forall i :: 0 <= i < |xs| ==> u[i] == (id(xs[i]).value, i)
  {
    if xs != [] {
      var k := |xs| - 1;
      OrderUpdatesAllStored(xs[..k], id);
      var u := OrderUpdates(xs, id);
      forall i | 0 <= i < k ensures u[i] == (id(xs[i]).value, i) {
        assert xs[i] == xs[..k][i];
      }
    }
  }

  /** Numbering by position makes the orders 0, 1, 2, ...: the list is then
      sorted by order, sorting leaves it as it is, and the next entry gets
      the list's length. */
  lemma ReindexedFacts<T>(xs: seq<T>, setOrder: (T, int) -> T, order: T -> int)
    requires forall x, i :: order(setOrder(x, i)) == i
    ensures var r := Reindexed(xs, setOrder);
      && (forall i :: 0 <= i < |r| ==> order(r[i]) == i)
      && SortedBy(r, order)
      && SortBy(r, order) == r
      && NextOrder(r, order) == |xs|
  {
    var r := Reindexed(xs, setOrder);
    assert forall i :: 0 <= i < |r| ==> order(r[i]) == i;
    SortBySorted(r, order);
    if r != [] {
      assert order(r[|r| - 1]) == |r| - 1;
    }
  }

  /** Appending an entry whose order is above every order keeps a sorted
      list sorted. */
  lemma SortedAppend<T>(xs: seq<T>, x: T, order: T -> int)
    requires SortedBy(xs, order)
    requires forall i :: 0 <= i < |xs| ==> order(xs[i]) < order(x)
    ensures SortedBy(xs + [x], order)
  {
    var r := xs + [x];
    forall i, j | 0 <= i < j < |r| ensures order(r[i]) <= order(r[j]) {
      assert r[i] == xs[i];
      if j < |xs| { assert r[j] == xs[j]; }
    }
  }

  /** Adding an entry with the next order and sorting puts it last, after
      exactly the old entries; if the old list was sorted, nothing else
      moves. */
  lemma AddSortedFacts<T>(xs: seq<T>, x: T, order: T -> int)
    requires order(x) == NextOrder(xs, order)
    ensures var r := SortBy(xs + [x], order);
      && SortedBy(r, order)
      && |r| == |xs| + 1 && r[|xs|] == x
      && multiset(r[..|xs|]) == multiset(xs)
      && (SortedBy(xs, order) ==> r == xs + [x])
  {
    NextOrderFacts(xs, order);
    var r := SortBy(xs + [x], order);
    SortByFacts(xs + [x], order);
    LargestKeyLast(xs, x, r, order);
    if SortedBy(xs, order) {
      SortedAppend(xs, x, order);
      SortBySorted(xs + [x], order);
    }
  }
}
