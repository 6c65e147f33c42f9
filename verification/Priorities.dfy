/** Sibling order by priority: the next free priority, reordering, and when it is accepted.
    Siblings are listed by (priority, id). */
module Priorities {
  import opened Ordering

  type Id = string

  predicate Distinct(ids: seq<Id>) {
    forall i, j :: 0 <= i < j < |ids| ==> ids[i] != ids[j]
  }

  function Elements(ids: seq<Id>): set<Id> {
    set x | x in ids
  }

  /** No two siblings share a priority. */
  predicate Separated(key: map<Id, int>) {
    forall x, y :: x in key && y in key && x != y ==> key[x] != key[y]
  }

  // ---- the two acceptance checks ----

  /** `len(set(ordered)) != len(ordered) or set(ordered) != set(existing)` refuses. */
  predicate MatrixAccepts(existing: seq<Id>, ordered: seq<Id>) {
    |Elements(ordered)| == |ordered| && Elements(ordered) == Elements(existing)
  }

  /** `len(existing) != len(ordered) or set(existing) != set(ordered)` refuses. */
  predicate FolderAccepts(existing: seq<Id>, ordered: seq<Id>) {
    |existing| == |ordered| && Elements(existing) == Elements(ordered)
  }

  predicate Permutes(existing: seq<Id>, ordered: seq<Id>) {
    multiset(existing) == multiset(ordered)
  }

  lemma DistinctStep(ids: seq<Id>, n: nat)
    requires |ids| == n + 1
    ensures Distinct(ids) <==> Distinct(ids[..n]) && ids[n] !in ids[..n]
  {
    if Distinct(ids[..n]) && ids[n] !in ids[..n] {
      forall i, j | 0 <= i < j < |ids| ensures ids[i] != ids[j] {
        assert ids[i] == ids[..n][i];
        assert j < n ==> ids[j] == ids[..n][j];
      }
    }
  }

  lemma {:induction false} ElementCount(ids: seq<Id>)
    ensures |Elements(ids)| <= |ids|
    ensures |Elements(ids)| == |ids| <==> Distinct(ids)
  {
    if ids != [] {
      var n := |ids| - 1;
      ElementCount(ids[..n]);
      DistinctStep(ids, n);
      hide Distinct;
      assert Elements(ids) == Elements(ids[..n]) + {ids[n]};
    }
  }

  /** In a distinct list every element occurs once. */
  lemma {:induction false} DistinctOnce(ids: seq<Id>, x: Id)
    requires Distinct(ids)
    ensures multiset(ids)[x] == if x in ids then 1 else 0
  {
    if ids != [] {
      var n := |ids| - 1;
      DistinctOnce(ids[..n], x);
      assert ids == ids[..n] + [ids[n]];
      assert ids[n] !in ids[..n];
    }
  }

  lemma PermutesIff(existing: seq<Id>, ordered: seq<Id>)
    requires Distinct(existing)
    ensures Permutes(existing, ordered) <==> Distinct(ordered) && Elements(ordered) == Elements(existing)
  {
    if Distinct(ordered) && Elements(ordered) == Elements(existing) {
      forall x ensures multiset(existing)[x] == multiset(ordered)[x] {
        DistinctOnce(existing, x);
        DistinctOnce(ordered, x);
        assert x in existing <==> x in Elements(existing);
        assert x in ordered <==> x in Elements(ordered);
      }
    }
    if Permutes(existing, ordered) {
      forall x ensures x in ordered <==> x in existing {
        assert x in existing <==> x in multiset(existing);
        assert x in ordered <==> x in multiset(ordered);
      }
      assert Elements(ordered) == Elements(existing);
      ElementCount(existing);
      ElementCount(ordered);
      assert |existing| == |multiset(existing)| == |multiset(ordered)| == |ordered|;
    }
  }

  /** Both checks accept exactly the permutations of the siblings. */
  lemma AcceptsPermutations(existing: seq<Id>, ordered: seq<Id>)
    requires Distinct(existing)
    ensures MatrixAccepts(existing, ordered) <==> Permutes(existing, ordered)
    ensures FolderAccepts(existing, ordered) <==> Permutes(existing, ordered)
  {
    PermutesIff(existing, ordered);
    ElementCount(existing);
    ElementCount(ordered);
  }

  // ---- the next priority ----

  /** `SELECT coalesce(max(priority), 0) + 1`. */
  function NextPriority(key: map<Id, int>): int {
    var ids := Listing(key);
    if ids == [] then 1
    else
      ListingIsListing(key);
      assert ids[|ids| - 1] in ids;
      key[ids[|ids| - 1]] + 1
  }

  lemma NextIsAbove(key: map<Id, int>)
    ensures forall x :: x in key ==> key[x] < NextPriority(key)
    ensures key.Keys != {} ==> exists x :: x in key && NextPriority(key) == key[x] + 1
  {
    ListingIsListing(key);
    var ids := Listing(key);
    forall x | x in key ensures key[x] < NextPriority(key) {
      assert x in ids;
      var i :| 0 <= i < |ids| && ids[i] == x;
      if i < |ids| - 1 { assert Before(key, ids[i], ids[|ids| - 1]); }
    }
    if key.Keys != {} {
      var x :| x in key;
      assert x in ids;
      assert ids[|ids| - 1] in ids;
    }
  }

  /** A new sibling is listed last, and priorities stay distinct. */
  lemma NewIsLast(key: map<Id, int>, id: Id)
    requires id !in key
    ensures Listing(key[id := NextPriority(key)]) == Listing(key) + [id]
    ensures Separated(key) ==> Separated(key[id := NextPriority(key)])
  {
    var grown, ids := key[id := NextPriority(key)], Listing(key) + [id];
    NextIsAbove(key);
    ListingIsListing(key);
    assert IsListing(grown, ids) by {
      forall x ensures x in ids <==> x in grown {
        assert x in Listing(key) <==> x in key;
      }
      forall i, j | 0 <= i < j < |ids| ensures ids[i] in grown && ids[j] in grown && Before(grown, ids[i], ids[j]) {
        assert ids[i] in Listing(key);
        if j < |ids| - 1 { assert Before(key, ids[i], ids[j]); }
      }
    }
    ListingUnique(grown, ids);
  }

  // ---- reordering ----

  /** The dictionary of `enumerate(ordered_ids, start=1)`. */
  function PriorityById(ordered: seq<Id>): map<Id, int> {
    if ordered == [] then map[]
    else PriorityById(ordered[..|ordered| - 1])[ordered[|ordered| - 1] := |ordered|]
  }

  /** UPDATE ... SET priority = CASE ... WHERE id IN ordered. */
  function Reordered(key: map<Id, int>, ordered: seq<Id>): map<Id, int> {
    map x | x in key :: if x in PriorityById(ordered) then PriorityById(ordered)[x] else key[x]
  }

  lemma {:induction false} PriorityIsPosition(ordered: seq<Id>)
    ensures forall x :: x in PriorityById(ordered) <==> x in ordered
    ensures Distinct(ordered) ==> forall i :: 0 <= i < |ordered| ==>
      ordered[i] in PriorityById(ordered) && PriorityById(ordered)[ordered[i]] == i + 1
  {
    if ordered != [] {
      var n := |ordered| - 1;
      PriorityIsPosition(ordered[..n]);
      assert ordered == ordered[..n] + [ordered[n]];
      if Distinct(ordered) {
        forall i | 0 <= i < n
          ensures ordered[i] in PriorityById(ordered) && PriorityById(ordered)[ordered[i]] == i + 1 {
          assert ordered[..n][i] == ordered[i];
        }
      }
    }
  }

  /** After an accepted reorder the listing is exactly the given order. */
  lemma ReorderedListing(key: map<Id, int>, ordered: seq<Id>)
    requires Permutes(Listing(key), ordered)
    ensures Listing(Reordered(key, ordered)) == ordered
    ensures Separated(Reordered(key, ordered))
  {
    var after := Reordered(key, ordered);
    ListingIsListing(key);
    ListingIsDistinct(key);
    PermutesIff(Listing(key), ordered);
    PriorityIsPosition(ordered);
    forall x ensures x in ordered <==> x in after {
      assert x in ordered <==> x in Elements(ordered);
      assert x in Listing(key) <==> x in Elements(Listing(key));
    }
    forall i, j | 0 <= i < j < |ordered|
      ensures ordered[i] in after && ordered[j] in after && Before(after, ordered[i], ordered[j]) {
      assert ordered[i] in ordered && ordered[j] in ordered;
    }
    assert IsListing(after, ordered);
    ListingUnique(after, ordered);
    ListingSeparates(after, ordered);
  }

  lemma ListingIsDistinct(key: map<Id, int>)
    ensures Distinct(Listing(key))
  {
    ListingIsListing(key);
    forall i, j | 0 <= i < j < |Listing(key)| ensures Listing(key)[i] != Listing(key)[j] {
      ListingDistinct(key, Listing(key), i, j);
    }
  }

  lemma ListingSeparates(key: map<Id, int>, ordered: seq<Id>)
    requires Distinct(ordered)
    requires forall x :: x in ordered <==> x in key
    requires forall i :: 0 <= i < |ordered| ==> key[ordered[i]] == i + 1
    ensures Separated(key)
  {
    forall x, y | x in key && y in key && x != y ensures key[x] != key[y] {
      assert x in ordered && y in ordered;
      var i :| 0 <= i < |ordered| && ordered[i] == x;
      var j :| 0 <= j < |ordered| && ordered[j] == y;
    }
  }

  /** Siblings that the order does not name keep their priorities. */
  lemma ReorderedOthers(key: map<Id, int>, ordered: seq<Id>)
    requires forall x :: x in ordered ==> x !in key
    ensures Reordered(key, ordered) == key
  {
    PriorityIsPosition(ordered);
  }
}
