/** The local-list patches every service applies after a store call
    succeeds, for any entity whose document id is `id(d)` (absent until the
    store has assigned one): removing by id, replacing by id, and finding by
    id; and keeping the documents of a query that decode. */
module Documents {
  import opened Wrappers
  import opened Lists

  function HasIdOf<T>(id: T -> Option<string>, x: string): T -> bool
  {
    d => id(d) == Some(x)
  }

  function LacksIdOf<T>(id: T -> Option<string>, x: string): T -> bool
  {
    d => id(d) != Some(x)
  }

  function Becomes<T>(y: T): T -> T
  {
    _ => y
  }

  /** `removeAll { $0.id == x }`. */
  function RemoveId<T>(xs: seq<T>, id: T -> Option<string>, x: string): seq<T>
  {
    Filter(xs, LacksIdOf(id, x))
  }

  /** `if let i = xs.firstIndex(where: { $0.id == x }) { xs[i] = y }`. */
  function ReplaceId<T>(xs: seq<T>, id: T -> Option<string>, x: string, y: T): seq<T>
  {
    UpdateFirst(xs, HasIdOf(id, x), Becomes(y))
  }

  /** `first { $0.id == x }`. */
  function FindId<T>(xs: seq<T>, id: T -> Option<string>, x: string): Option<T>
  {
    First(xs, HasIdOf(id, x))
  }

  /** No two documents that have an id share it, as in one store collection. */
  ghost predicate UniqueIds<T>(xs: seq<T>, id: T -> Option<string>)
  {
    forall i, j :: 0 <= i < j < |xs| && id(xs[i]).Some? ==> id(xs[i]) != id(xs[j])
  }

  /** The documents of a query that decode, in order; a document that does
      not decode is dropped (`compactMap` over `try?`). */
  function Decodable<T(!new)>(docs: seq<Option<T>>): (r: seq<T>)
    ensures |r| <= |docs|
    ensures forall x :: x in r <==> Some(x) in docs
    ensures (forall i :: 0 <= i < |docs| ==> docs[i].Some?) ==>
      |r| == |docs| && forall i :: 0 <= i < |docs| ==> r[i] == docs[i].value
  {
    if docs == [] then []
    else
      var rest := Decodable(docs[1..]);
      assert forall d :: d in docs <==> d == docs[0] || d in docs[1..];
      (if docs[0].Some? then [docs[0].value] else []) + rest
  }

  // ---------------------------------------------------------------- lemmas

  /** What the id tests mean for one entity type. */
  lemma IdTests<T>(id: T -> Option<string>, x: string)
    ensures forall d :: HasIdOf(id, x)(d) <==> id(d) == Some(x)
    ensures forall d :: LacksIdOf(id, x)(d) <==> id(d) != Some(x)
  {
  }

  /** Removing by id leaves no document with the id, keeps each other
      document as often as it was there, distributes over concatenation (so
      the kept documents keep their order), and changes nothing when no
      document has the id. */
  lemma RemoveIdFacts<T>(xs: seq<T>, id: T -> Option<string>, x: string)
    ensures forall k :: 0 <= k < |RemoveId(xs, id, x)| ==> id(RemoveId(xs, id, x)[k]) != Some(x)
    ensures forall d :: multiset(RemoveId(xs, id, x))[d] == if id(d) == Some(x) then 0 else multiset(xs)[d]
    ensures (forall k :: 0 <= k < |xs| ==> id(xs[k]) != Some(x)) ==> RemoveId(xs, id, x) == xs
  {
    forall d {
      FilterMultiplicity(xs, LacksIdOf(id, x), d);
    }
    if forall k :: 0 <= k < |xs| ==> id(xs[k]) != Some(x) {
      FilterAll(xs, LacksIdOf(id, x));
    }
  }

  lemma RemoveIdAppend<T>(a: seq<T>, b: seq<T>, id: T -> Option<string>, x: string)
    ensures RemoveId(a + b, id, x) == RemoveId(a, id, x) + RemoveId(b, id, x)
  {
    FilterAppend(a, b, LacksIdOf(id, x));
  }

  /** Removing documents keeps the ids unique. */
  lemma {:induction false} RemoveIdKeepsUnique<T>(xs: seq<T>, id: T -> Option<string>, x: string)
    ensures UniqueIds(xs, id) ==> UniqueIds(RemoveId(xs, id, x), id)
  {
    if xs != [] {
      RemoveIdKeepsUnique(xs[1..], id, x);
      var rest := RemoveId(xs[1..], id, x);
      FilterMembers(xs[1..], LacksIdOf(id, x));
      if UniqueIds(xs, id) && id(xs[0]) != Some(x) {
        assert UniqueIds(xs[1..], id);
        var r := RemoveId(xs, id, x);
        assert r == [xs[0]] + rest;
        forall i, j | 0 <= i < j < |r| && id(r[i]).Some? ensures id(r[i]) != id(r[j]) {
          if i == 0 {
            assert r[j] == rest[j - 1];
            var k :| 0 <= k < |xs[1..]| && xs[1..][k] == rest[j - 1];
            assert xs[k + 1] == r[j];
          } else {
            assert r[i] == rest[i - 1] && r[j] == rest[j - 1];
          }
        }
      }
    }
  }

  /** With unique ids, the first document with an id is the only one. */
  lemma UniqueIdIndex<T>(xs: seq<T>, id: T -> Option<string>, i: nat, x: string)
    requires UniqueIds(xs, id) && i < |xs| && id(xs[i]) == Some(x)
    ensures FirstIndex(xs, HasIdOf(id, x)) == Some(i)
    ensures forall k :: 0 <= k < |xs| && k != i ==> id(xs[k]) != Some(x)
  {
  }

  /** Replacing by id changes at most one place, the first document with the
      id, and keeps the length; without such a document nothing changes. */
  lemma ReplaceIdFacts<T>(xs: seq<T>, id: T -> Option<string>, x: string, y: T)
    ensures |ReplaceId(xs, id, x, y)| == |xs|
    ensures (forall k :: 0 <= k < |xs| ==> id(xs[k]) != Some(x)) ==> ReplaceId(xs, id, x, y) == xs
    ensures forall i :: 0 <= i < |xs| && id(xs[i]) == Some(x) && UniqueIds(xs, id) ==>
      ReplaceId(xs, id, x, y) == xs[i := y]
  {
    forall i | 0 <= i < |xs| && id(xs[i]) == Some(x) && UniqueIds(xs, id)
      ensures ReplaceId(xs, id, x, y) == xs[i := y]
    {
      UniqueIdIndex(xs, id, i, x);
      UpdateFirstAt(xs, HasIdOf(id, x), Becomes(y), i);
    }
  }

  /** Replacing a document by one with the same id keeps the ids unique, and
      the replacement is what a lookup by the id then finds. */
  lemma ReplaceIdKeepsUnique<T>(xs: seq<T>, id: T -> Option<string>, x: string, y: T)
    requires UniqueIds(xs, id) && id(y) == Some(x)
    ensures UniqueIds(ReplaceId(xs, id, x, y), id)
    ensures (exists k :: 0 <= k < |xs| && id(xs[k]) == Some(x)) ==> FindId(ReplaceId(xs, id, x, y), id, x) == Some(y)
  {
    ReplaceIdFacts(xs, id, x, y);
    if i :| 0 <= i < |xs| && id(xs[i]) == Some(x) {
      UniqueIdIndex(xs, id, i, x);
      var r := xs[i := y];
      assert ReplaceId(xs, id, x, y) == r;
      forall j | 0 <= j < i ensures !HasIdOf(id, x)(r[j]) {
        assert r[j] == xs[j];
      }
      FirstIndexIs(r, HasIdOf(id, x), i);
    }
  }

  /** Appending a document whose id no document has keeps the ids unique. */
  lemma AppendKeepsUnique<T>(xs: seq<T>, id: T -> Option<string>, y: T)
    requires UniqueIds(xs, id)
    requires id(y).Some? ==> forall k :: 0 <= k < |xs| ==> id(xs[k]) != id(y)
    ensures UniqueIds(xs + [y], id)
  {
    var r := xs + [y];
    forall i, j | 0 <= i < j < |r| && id(r[i]).Some? ensures id(r[i]) != id(r[j]) {
      assert r[i] == xs[i];
      if j < |xs| { assert r[j] == xs[j]; }
    }
  }

  /** A lookup by id finds nothing exactly when no document has the id, and
      otherwise the first document that has it. */
  lemma FindIdFacts<T>(xs: seq<T>, id: T -> Option<string>, x: string)
    ensures FindId(xs, id, x).None? <==> forall k :: 0 <= k < |xs| ==> id(xs[k]) != Some(x)
    ensures FindId(xs, id, x).Some? ==>
      exists i :: 0 <= i < |xs| && xs[i] == FindId(xs, id, x).value && id(xs[i]) == Some(x)
        && forall j :: 0 <= j < i ==> id(xs[j]) != Some(x)
  {
    var r := FindId(xs, id, x);
    if r.Some? {
      var i := FirstIndex(xs, HasIdOf(id, x)).value;
      assert xs[i] == r.value && id(xs[i]) == Some(x);
    }
  }
}
