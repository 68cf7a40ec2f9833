/** The Swift collection operations the services and view models use
    (`filter`, `removeAll(where:)`, `reduce(0, +)`, `first(where:)`,
    `firstIndex(where:)`, `contains(where:)`, `sort(by:)`), written once over
    sequences, with the facts about them that the rest of the model relies on. */
module Lists {
  import opened Wrappers

  // ---------------------------------------------------------------- filter

  /** The elements of `xs` that satisfy `keep`, in their original order. */
  function Filter<T>(xs: seq<T>, keep: T -> bool): (r: seq<T>)
    ensures |r| <= |xs|
    ensures forall i :: 0 <= i < |r| ==> keep(r[i])
  {
    if xs == [] then []
    else (if keep(xs[0]) then [xs[0]] else []) + Filter(xs[1..], keep)
  }

  /** Filtering distributes over concatenation, so the kept elements stay in
      the order they had. */
  lemma {:induction false} FilterAppend<T>(a: seq<T>, b: seq<T>, keep: T -> bool)
    ensures Filter(a + b, keep) == Filter(a, keep) + Filter(b, keep)
  {
    if a == [] {
      assert a + b == b;
    } else {
      assert (a + b)[1..] == a[1..] + b;
      FilterAppend(a[1..], b, keep);
    }
  }

  /** Filtering keeps every occurrence of a kept element and drops every
      occurrence of a dropped one. */
  lemma {:induction false} FilterMultiplicity<T>(xs: seq<T>, keep: T -> bool, x: T)
    ensures multiset(Filter(xs, keep))[x] == if keep(x) then multiset(xs)[x] else 0
  {
    if xs != [] {
      FilterMultiplicity(xs[1..], keep, x);
      assert xs == [xs[0]] + xs[1..];
    }
  }

  /** A filter that keeps everything is the identity. */
  lemma {:induction false} FilterAll<T>(xs: seq<T>, keep: T -> bool)
    requires forall i :: 0 <= i < |xs| ==> keep(xs[i])
    ensures Filter(xs, keep) == xs
  {
    if xs != [] {
      FilterAll(xs[1..], keep);
    }
  }

  /** Filtering keeps exactly the elements of `xs` that satisfy `keep`. */
  lemma {:induction false} FilterMembers<T>(xs: seq<T>, keep: T -> bool)
    ensures forall i :: 0 <= i < |Filter(xs, keep)| ==> Filter(xs, keep)[i] in xs
    ensures forall i :: 0 <= i < |xs| && keep(xs[i]) ==> xs[i] in Filter(xs, keep)
  {
    if xs != [] {
      FilterMembers(xs[1..], keep);
      assert forall i :: 1 <= i < |xs| ==> xs[i] == xs[1..][i - 1];
    }
  }

  /** `ok` holds of every pair of elements, taken in list order. */
  ghost predicate Pairwise<T>(xs: seq<T>, ok: (T, T) -> bool)
  {
    forall i, j :: 0 <= i < j < |xs| ==> ok(xs[i], xs[j])
  }

  /** Filtering keeps a property of every ordered pair. */
  lemma {:induction false} FilterKeepsPairwise<T>(xs: seq<T>, keep: T -> bool, ok: (T, T) -> bool)
    ensures Pairwise(xs, ok) ==> Pairwise(Filter(xs, keep), ok)
  {
    if xs != [] && Pairwise(xs, ok) {
      FilterKeepsPairwise(xs[1..], keep, ok);
      var rest := Filter(xs[1..], keep);
      FilterMembers(xs[1..], keep);
      assert Pairwise(xs[1..], ok) by {
        forall i, j | 0 <= i < j < |xs[1..]| ensures ok(xs[1..][i], xs[1..][j]) {
          assert xs[1..][i] == xs[i + 1] && xs[1..][j] == xs[j + 1];
        }
      }
      if keep(xs[0]) {
        var r := [xs[0]] + rest;
        assert Filter(xs, keep) == r;
        forall i, j | 0 <= i < j < |r| ensures ok(r[i], r[j]) {
          assert r[j] == rest[j - 1];
          if i == 0 {
            var k :| 0 <= k < |xs[1..]| && xs[1..][k] == rest[j - 1];
            assert xs[k + 1] == r[j];
          } else {
            assert r[i] == rest[i - 1];
          }
        }
      }
    }
  }

  // ---------------------------------------------------------------- reduce

  /** `xs.reduce(0) { $0 + f($1) }`. */
  function Sum<T>(xs: seq<T>, f: T -> int): int
  {
    if xs == [] then 0 else f(xs[0]) + Sum(xs[1..], f)
  }

  lemma {:induction false} SumAppend<T>(a: seq<T>, b: seq<T>, f: T -> int)
    ensures Sum(a + b, f) == Sum(a, f) + Sum(b, f)
  {
    if a == [] {
      assert a + b == b;
    } else {
      assert (a + b)[1..] == a[1..] + b;
      SumAppend(a[1..], b, f);
    }
  }

  /** Splitting a list by a predicate splits its sum. */
  lemma {:induction false} SumSplit<T>(xs: seq<T>, f: T -> int, p: T -> bool)
    ensures Sum(xs, f) == Sum(Filter(xs, p), f) + Sum(Filter(xs, x => !p(x)), f)
  {
    if xs != [] {
      SumSplit(xs[1..], f, p);
      var rest := xs[1..];
      if p(xs[0]) {
        assert Filter(xs, p) == [xs[0]] + Filter(rest, p);
        assert Filter(xs, x => !p(x)) == Filter(rest, x => !p(x));
      } else {
        assert Filter(xs, p) == Filter(rest, p);
        assert Filter(xs, x => !p(x)) == [xs[0]] + Filter(rest, x => !p(x));
      }
    }
  }

  /** A sum of terms that are all `<= 0` is `<= 0`, and likewise for `>= 0`. */
  lemma {:induction false} SumSign<T>(xs: seq<T>, f: T -> int)
    ensures (forall i :: 0 <= i < |xs| ==> f(xs[i]) <= 0) ==> Sum(xs, f) <= 0
    ensures (forall i :: 0 <= i < |xs| ==> f(xs[i]) >= 0) ==> Sum(xs, f) >= 0
  {
    if xs != [] {
      SumSign(xs[1..], f);
      assert forall i :: 1 <= i < |xs| ==> xs[1..][i - 1] == xs[i];
    }
  }

  /** Terms that are zero do not change a sum. */
  lemma {:induction false} SumDropZeros<T>(xs: seq<T>, f: T -> int, p: T -> bool)
    requires forall i :: 0 <= i < |xs| && !p(xs[i]) ==> f(xs[i]) == 0
    ensures Sum(Filter(xs, p), f) == Sum(xs, f)
  {
    SumSplit(xs, f, p);
    var dropped := Filter(xs, x => !p(x));
    FilterMembers(xs, x => !p(x));
    SumZero(dropped, f);
  }

  /** A filtered sum is the sum of `g`, where `g` counts the dropped
      elements as zero. */
  lemma {:induction false} SumFilter<T>(xs: seq<T>, p: T -> bool, f: T -> int, g: T -> int)
    requires forall x :: g(x) == if p(x) then f(x) else 0
    ensures Sum(Filter(xs, p), f) == Sum(xs, g)
  {
    if xs != [] {
      SumFilter(xs[1..], p, f, g);
      var rest := Filter(xs[1..], p);
      if p(xs[0]) {
        assert Filter(xs, p) == [xs[0]] + rest;
        assert ([xs[0]] + rest)[1..] == rest;
      } else {
        assert Filter(xs, p) == rest;
      }
    }
  }

  /** Replacing one element changes a sum by the difference of its terms. */
  lemma {:induction false} SumUpdate<T>(xs: seq<T>, k: nat, y: T, f: T -> int)
    requires k < |xs|
    ensures Sum(xs[k := y], f) == Sum(xs, f) - f(xs[k]) + f(y)
  {
    if k > 0 {
      SumUpdate(xs[1..], k - 1, y, f);
      assert xs[k := y][1..] == xs[1..][k - 1 := y];
    } else {
      assert xs[k := y][1..] == xs[1..];
    }
  }

  /** A sum of pointwise sums is the sum of the two sums. */
  lemma {:induction false} SumAdd<T>(xs: seq<T>, f: T -> int, g: T -> int, h: T -> int)
    requires forall x :: f(x) == g(x) + h(x)
    ensures Sum(xs, f) == Sum(xs, g) + Sum(xs, h)
  {
    if xs != [] {
      SumAdd(xs[1..], f, g, h);
    }
  }

  /** Replacing one element changes a filtered sum by the difference of the
      two elements' contributions. */
  lemma SumFilterUpdate<T>(xs: seq<T>, p: T -> bool, f: T -> int, k: nat, y: T)
    requires k < |xs|
    ensures Sum(Filter(xs[k := y], p), f) ==
      Sum(Filter(xs, p), f) - (if p(xs[k]) then f(xs[k]) else 0) + (if p(y) then f(y) else 0)
  {
    var g := x => if p(x) then f(x) else 0;
    SumFilter(xs, p, f, g);
    SumFilter(xs[k := y], p, f, g);
    SumUpdate(xs, k, y, g);
  }

  /** Appending one element adds its contribution to a filtered sum. */
  lemma SumFilterAppend<T>(xs: seq<T>, p: T -> bool, f: T -> int, y: T)
    ensures Sum(Filter(xs + [y], p), f) == Sum(Filter(xs, p), f) + (if p(y) then f(y) else 0)
  {
    FilterAppend(xs, [y], p);
    assert Filter([y], p) == if p(y) then [y] else [] by { assert [y][1..] == []; }
    SumAppend(Filter(xs, p), Filter([y], p), f);
    assert Sum([y], f) == f(y) by { assert [y][1..] == []; }
  }

  /** `SumFilter` for the elements of one list only: `g` need only agree
      with the filtered terms on the list's own elements. */
  lemma {:induction false} SumFilterWithin<T>(xs: seq<T>, p: T -> bool, f: T -> int, g: T -> int)
    requires forall i :: 0 <= i < |xs| ==> g(xs[i]) == if p(xs[i]) then f(xs[i]) else 0
    ensures Sum(Filter(xs, p), f) == Sum(xs, g)
  {
    if xs != [] {
      assert forall i :: 1 <= i < |xs| ==> xs[1..][i - 1] == xs[i];
      SumFilterWithin(xs[1..], p, f, g);
      var rest := Filter(xs[1..], p);
      if p(xs[0]) {
        assert Filter(xs, p) == [xs[0]] + rest;
        assert ([xs[0]] + rest)[1..] == rest;
      } else {
        assert Filter(xs, p) == rest;
      }
    }
  }

  /** Reordering a list does not change its sum. */
  lemma {:induction false} SumPermutation<T>(a: seq<T>, b: seq<T>, f: T -> int)
    requires multiset(a) == multiset(b)
    ensures Sum(a, f) == Sum(b, f)
    decreases |a|
  {
    if a == [] {
      assert |b| == |multiset(b)| == 0;
    } else {
      var x := a[0];
      assert x in multiset(b) by { assert x in multiset(a); }
      var i :| 0 <= i < |b| && b[i] == x;
      var rest := b[..i] + b[i + 1..];
      RemoveAtMultiset(b, i);
      RemoveAtMultiset(a, 0);
      assert a[..0] + a[1..] == a[1..];
      MultisetCancel(multiset(rest), multiset(a[1..]), x);
      SumPermutation(a[1..], rest, f);
      SumRemoveAt(b, i, f);
    }
  }

  lemma RemoveAtMultiset<T>(b: seq<T>, i: nat)
    requires i < |b|
    ensures multiset(b[..i] + b[i + 1..]) + multiset{b[i]} == multiset(b)
  {
    assert b == b[..i] + [b[i]] + b[i + 1..];
  }

  lemma MultisetCancel<T>(m: multiset<T>, n: multiset<T>, x: T)
    requires m + multiset{x} == n + multiset{x}
    ensures m == n
  {
    assert forall y :: m[y] == (m + multiset{x})[y] - multiset{x}[y];
    assert forall y :: n[y] == (n + multiset{x})[y] - multiset{x}[y];
  }

  lemma SumRemoveAt<T>(b: seq<T>, i: nat, f: T -> int)
    requires i < |b|
    ensures Sum(b, f) == f(b[i]) + Sum(b[..i] + b[i + 1..], f)
  {
    var before, mid, after := b[..i], b[i..], b[i + 1..];
    assert mid[1..] == after;
    assert Sum(mid, f) == f(b[i]) + Sum(after, f);
    assert b == before + mid;
    SumAppend(before, mid, f);
    SumAppend(before, after, f);
  }

  lemma {:induction false} SumZero<T>(xs: seq<T>, f: T -> int)
    requires forall i :: 0 <= i < |xs| ==> f(xs[i]) == 0
    ensures Sum(xs, f) == 0
  {
    if xs != [] {
      assert forall i :: 1 <= i < |xs| ==> xs[1..][i - 1] == xs[i];
      SumZero(xs[1..], f);
    }
  }

  // ------------------------------------------------------------ distinct

  /** No two elements share a key. */
  ghost predicate DistinctBy<T, K>(xs: seq<T>, key: T -> K)
  {
    forall i, j :: 0 <= i < j < |xs| ==> key(xs[i]) != key(xs[j])
  }

  /** In a list whose keys are distinct, every element occurs at most once. */
  lemma {:induction false} DistinctByOnce<T, K>(xs: seq<T>, key: T -> K)
    requires DistinctBy(xs, key)
    ensures forall x :: multiset(xs)[x] <= 1
  {
    if xs != [] {
      var rest := xs[1..];
      assert DistinctBy(rest, key) by {
        forall i, j | 0 <= i < j < |rest| ensures key(rest[i]) != key(rest[j]) {
          assert rest[i] == xs[i + 1] && rest[j] == xs[j + 1];
        }
      }
      DistinctByOnce(rest, key);
      assert xs == [xs[0]] + rest;
      forall k | 0 <= k < |rest| ensures rest[k] != xs[0] {
        assert rest[k] == xs[k + 1];
      }
      assert xs[0] !in multiset(rest);
    }
  }

  /** In a list where every element occurs at most once, elements at two
      different positions differ. */
  lemma OnceDistinct<T>(xs: seq<T>, i: nat, j: nat)
    requires forall x :: multiset(xs)[x] <= 1
    requires i < j < |xs|
    ensures xs[i] != xs[j]
  {
    var before, from := xs[..j], xs[j..];
    assert xs == before + from;
    assert multiset(xs) == multiset(before) + multiset(from);
    assert multiset(from)[xs[j]] >= 1 by { assert from[0] == xs[j]; }
    assert multiset(xs)[xs[j]] <= 1;
    assert multiset(before)[xs[j]] == 0;
    assert xs[i] in multiset(before) by { assert before[i] == xs[i]; }
  }

  /** Reordering a list keeps its keys distinct. */
  lemma DistinctByPermutation<T, K>(a: seq<T>, b: seq<T>, key: T -> K)
    requires multiset(a) == multiset(b)
    requires DistinctBy(a, key)
    ensures DistinctBy(b, key)
  {
    DistinctByOnce(a, key);
    forall i, j | 0 <= i < j < |b| ensures key(b[i]) != key(b[j]) {
      OnceDistinct(b, i, j);
      assert b[i] in multiset(a) && b[j] in multiset(a);
      var p :| 0 <= p < |a| && a[p] == b[i];
      var q :| 0 <= q < |a| && a[q] == b[j];
      if p < q {
        assert key(a[p]) != key(a[q]);
      } else {
        assert key(a[q]) != key(a[p]);
      }
    }
  }

  // ---------------------------------------------------------------- search

  /** `xs.firstIndex(where: p)`. */
  function FirstIndex<T>(xs: seq<T>, p: T -> bool): (r: Option<nat>)
    ensures r.Some? ==> r.value < |xs| && p(xs[r.value])
    ensures r.Some? ==> forall j :: 0 <= j < r.value ==> !p(xs[j])
    ensures r.None? <==> forall j :: 0 <= j < |xs| ==> !p(xs[j])
  {
    if xs == [] then None
    else if p(xs[0]) then Some(0)
    else match FirstIndex(xs[1..], p)
      case None => None
      case Some(i) => Some(i + 1)
  }

  /** The first index is determined by the first match. */
  lemma FirstIndexIs<T>(xs: seq<T>, p: T -> bool, i: nat)
    requires i < |xs| && p(xs[i])
    requires forall j :: 0 <= j < i ==> !p(xs[j])
    ensures FirstIndex(xs, p) == Some(i)
  {
  }

  /** `if let k = xs.firstIndex(where: p) { xs[k] = f(xs[k]) }`: the first
      element satisfying `p` is transformed and every other element is kept. */
  function UpdateFirst<T>(xs: seq<T>, p: T -> bool, f: T -> T): (r: seq<T>)
    ensures |r| == |xs|
  {
    match FirstIndex(xs, p)
    case None => xs
    case Some(k) => xs[k := f(xs[k])]
  }

  /** Only the first match changes, and it becomes its image under `f`. */
  lemma UpdateFirstFacts<T>(xs: seq<T>, p: T -> bool, f: T -> T)
    ensures forall k :: 0 <= k < |xs| && FirstIndex(xs, p) != Some(k) ==> UpdateFirst(xs, p, f)[k] == xs[k]
    ensures FirstIndex(xs, p).Some? ==>
      UpdateFirst(xs, p, f)[FirstIndex(xs, p).value] == f(xs[FirstIndex(xs, p).value])
    ensures FirstIndex(xs, p).None? ==> UpdateFirst(xs, p, f) == xs
  {
  }

  lemma UpdateFirstAt<T>(xs: seq<T>, p: T -> bool, f: T -> T, i: nat)
    requires FirstIndex(xs, p) == Some(i)
    ensures i < |xs| && UpdateFirst(xs, p, f) == xs[i := f(xs[i])]
  {
  }

  /** `xs.first(where: p)`. */
  function First<T>(xs: seq<T>, p: T -> bool): (r: Option<T>)
    ensures r.None? <==> forall j :: 0 <= j < |xs| ==> !p(xs[j])
    ensures r.Some? ==> exists i :: 0 <= i < |xs| && xs[i] == r.value && p(xs[i])
                                      && forall j :: 0 <= j < i ==> !p(xs[j])
  {
    match FirstIndex(xs, p)
    case None => None
    case Some(i) => Some(xs[i])
  }

  /** `xs.contains(where: p)`. */
  function Contains<T>(xs: seq<T>, p: T -> bool): (r: bool)
    ensures r <==> exists i :: 0 <= i < |xs| && p(xs[i])
  {
    if xs == [] then false else p(xs[0]) || Contains(xs[1..], p)
  }

  // ---------------------------------------------------------------- trim

  /** Drops the leading elements that satisfy `drop`. */
  function TrimStart<T>(xs: seq<T>, drop: T -> bool): (r: seq<T>)
    ensures |r| <= |xs| && r == xs[|xs| - |r|..]
    ensures forall i :: 0 <= i < |xs| - |r| ==> drop(xs[i])
    ensures r != [] ==> !drop(r[0])
  {
    if xs != [] && drop(xs[0]) then TrimStart(xs[1..], drop) else xs
  }

  /** Drops the trailing elements that satisfy `drop`. */
  function TrimEnd<T>(xs: seq<T>, drop: T -> bool): (r: seq<T>)
    ensures |r| <= |xs| && r == xs[..|r|]
    ensures forall i :: |r| <= i < |xs| ==> drop(xs[i])
    ensures r != [] ==> !drop(r[|r| - 1])
  {
    if xs != [] && drop(xs[|xs| - 1]) then TrimEnd(xs[..|xs| - 1], drop) else xs
  }

  /** Drops the elements that satisfy `drop` from both ends (Foundation's
      `trimmingCharacters(in:)`). */
  function Trim<T>(xs: seq<T>, drop: T -> bool): seq<T>
  {
    TrimEnd(TrimStart(xs, drop), drop)
  }

  /** A sequence that neither starts nor ends with a dropped element is its
      own trim. */
  lemma TrimUnchanged<T>(xs: seq<T>, drop: T -> bool)
    requires xs != [] ==> !drop(xs[0]) && !drop(xs[|xs| - 1])
    ensures Trim(xs, drop) == xs
  {
  }

  /** Trimming keeps a last element that is not dropped. */
  lemma TrimKeepsLast<T>(xs: seq<T>, drop: T -> bool)
    requires xs != [] && !drop(xs[|xs| - 1])
    ensures Trim(xs, drop) != [] && Trim(xs, drop)[|Trim(xs, drop)| - 1] == xs[|xs| - 1]
  {
    var t0 := TrimStart(xs, drop);
    assert t0[|t0| - 1] == xs[|xs| - 1];
  }

  /** Trimming removes exactly a padding of dropped elements around a
      sequence that neither starts nor ends with one. */
  lemma TrimPadded<T>(pre: seq<T>, xs: seq<T>, post: seq<T>, drop: T -> bool)
    requires forall i :: 0 <= i < |pre| ==> drop(pre[i])
    requires forall i :: 0 <= i < |post| ==> drop(post[i])
    requires xs != [] && !drop(xs[0]) && !drop(xs[|xs| - 1])
    ensures Trim(pre + xs + post, drop) == xs
  {
    assert pre + xs + post == pre + (xs + post);
    TrimStartPadded(pre, xs + post, drop);
    TrimEndPadded(xs, post, drop);
  }

  lemma {:induction false} TrimStartPadded<T>(pre: seq<T>, xs: seq<T>, drop: T -> bool)
    requires forall i :: 0 <= i < |pre| ==> drop(pre[i])
    requires xs != [] && !drop(xs[0])
    ensures TrimStart(pre + xs, drop) == xs
  {
    var ys := pre + xs;
    if pre == [] {
      assert ys == xs;
    } else {
      assert ys[0] == pre[0] && ys[1..] == pre[1..] + xs;
      TrimStartPadded(pre[1..], xs, drop);
    }
  }

  lemma {:induction false} TrimEndPadded<T>(xs: seq<T>, post: seq<T>, drop: T -> bool)
    requires forall i :: 0 <= i < |post| ==> drop(post[i])
    requires xs != [] && !drop(xs[|xs| - 1])
    ensures TrimEnd(xs + post, drop) == xs
  {
    if post != [] {
      var n := |xs + post|;
      assert (xs + post)[..n - 1] == xs + post[..|post| - 1];
      TrimEndPadded(xs, post[..|post| - 1], drop);
    }
  }

  // ---------------------------------------------------------------- sort

  /** Every element's key is at most the key of every later element. */
  ghost predicate SortedBy<T>(xs: seq<T>, key: T -> int)
  {
    forall i, j :: 0 <= i < j < |xs| ==> key(xs[i]) <= key(xs[j])
  }

  /** Inserts `x` in front of the first element whose key is not smaller. */
  function Insert<T>(x: T, xs: seq<T>, key: T -> int): seq<T>
  {
    if xs == [] || key(x) <= key(xs[0]) then [x] + xs
    else [xs[0]] + Insert(x, xs[1..], key)
  }

  /** `xs.sorted { key($0) < key($1) }`, as an insertion sort. Swift does not
      promise which of two elements with equal keys comes first; the facts
      below that the model uses (sorted, a permutation) hold for any order
      of ties. */
  function SortBy<T>(xs: seq<T>, key: T -> int): seq<T>
  {
    if xs == [] then [] else Insert(xs[0], SortBy(xs[1..], key), key)
  }

  /** Every key in `Insert(x, xs, key)` is at least `b` when `x`'s and all of
      `xs`'s keys are. */
  lemma {:induction false} InsertLowerBound<T>(x: T, xs: seq<T>, key: T -> int, b: int)
    requires b <= key(x)
    requires forall i :: 0 <= i < |xs| ==> b <= key(xs[i])
    ensures forall k :: 0 <= k < |Insert(x, xs, key)| ==> b <= key(Insert(x, xs, key)[k])
  {
    if xs != [] && key(xs[0]) < key(x) {
      InsertLowerBound(x, xs[1..], key, b);
    }
  }

  lemma SortedCons<T>(h: T, t: seq<T>, key: T -> int)
    requires SortedBy(t, key)
    requires forall k :: 0 <= k < |t| ==> key(h) <= key(t[k])
    ensures SortedBy([h] + t, key)
  {
    var s := [h] + t;
    forall i, j | 0 <= i < j < |s| ensures key(s[i]) <= key(s[j]) {
      assert s[j] == t[j - 1];
      if i > 0 { assert s[i] == t[i - 1]; }
    }
  }

  lemma {:induction false} InsertFacts<T>(x: T, xs: seq<T>, key: T -> int)
    requires SortedBy(xs, key)
    ensures SortedBy(Insert(x, xs, key), key)
    ensures multiset(Insert(x, xs, key)) == multiset(xs) + multiset{x}
  {
    if xs == [] || key(x) <= key(xs[0]) {
      SortedCons(x, xs, key);
    } else {
      var h, t := xs[0], xs[1..];
      assert xs == [h] + t;
      assert SortedBy(t, key);
      InsertFacts(x, t, key);
      assert forall i :: 0 <= i < |t| ==> key(h) <= key(t[i]) by {
        forall i | 0 <= i < |t| ensures key(h) <= key(t[i]) {
          assert t[i] == xs[i + 1];
        }
      }
      InsertLowerBound(x, t, key, key(h));
      SortedCons(h, Insert(x, t, key), key);
    }
  }

  /** The sorted list is ordered by key and holds exactly the input's elements. */
  lemma {:induction false} SortByFacts<T>(xs: seq<T>, key: T -> int)
    ensures SortedBy(SortBy(xs, key), key)
    ensures multiset(SortBy(xs, key)) == multiset(xs)
    ensures |SortBy(xs, key)| == |xs|
  {
    if xs != [] {
      SortByFacts(xs[1..], key);
      InsertFacts(xs[0], SortBy(xs[1..], key), key);
      assert xs == [xs[0]] + xs[1..];
    }
    assert |multiset(SortBy(xs, key))| == |SortBy(xs, key)|;
  }

  /** Sorting a list that is already sorted leaves it as it is. */
  lemma {:induction false} SortBySorted<T>(xs: seq<T>, key: T -> int)
    requires SortedBy(xs, key)
    ensures SortBy(xs, key) == xs
  {
    if xs != [] {
      SortBySorted(xs[1..], key);
    }
  }

  /** In a sorted permutation of `xs + [x]`, where `x`'s key is larger than
      every key in `xs`, `x` comes last and `xs`'s elements come before it. */
  lemma LargestKeyLast<T>(xs: seq<T>, x: T, r: seq<T>, key: T -> int)
    requires forall i :: 0 <= i < |xs| ==> key(xs[i]) < key(x)
    requires SortedBy(r, key) && multiset(r) == multiset(xs + [x])
    ensures |r| == |xs| + 1 && r[|xs|] == x
    ensures multiset(r[..|xs|]) == multiset(xs)
  {
    assert |r| == |multiset(r)| == |multiset(xs + [x])| == |xs| + 1;
    var n := |xs|;
    var last := r[n];
    assert x in multiset(r) by { assert (xs + [x])[n] == x; }
    var k :| 0 <= k < |r| && r[k] == x;
    assert key(x) <= key(last) by {
      if k < n { assert key(r[k]) <= key(r[n]); }
    }
    forall i | 0 <= i < n ensures (xs + [x])[i] != last {
      assert (xs + [x])[i] == xs[i];
    }
    assert last in multiset(xs + [x]) by { assert last in multiset(r); }
    var m :| 0 <= m < n + 1 && (xs + [x])[m] == last;
    assert r == r[..n] + [x];
    DropLast(r[..n], xs, x);
  }

  lemma DropLast<T>(p: seq<T>, xs: seq<T>, x: T)
    requires multiset(p + [x]) == multiset(xs + [x])
    ensures multiset(p) == multiset(xs)
  {
    calc {
      multiset(p);
      multiset(p + [x]) - multiset{x};
      multiset(xs + [x]) - multiset{x};
      multiset(xs);
    }
  }
}
