/** Orders used by the queries: text identifiers compare lexicographically, and
    listings are ordered by an integer column with the identifier as tie-break. */
module Ordering {

  predicate LexLess(a: string, b: string) {
    b != [] && (a == [] || a[0] < b[0] || (a[0] == b[0] && LexLess(a[1..], b[1..])))
  }

  /** A proper prefix comes first; otherwise the first place where the texts differ decides. */
  lemma {:induction false} LexExactly(a: string, b: string)
    ensures LexLess(a, b)
       <==> (a <= b && a != b) || exists k :: 0 <= k < |a| && k < |b| && a[..k] == b[..k] && a[k] < b[k]
  {
    if a != [] && b != [] && a[0] == b[0] {
      var c, d := a[1..], b[1..];
      LexExactly(c, d);
      assert a == [a[0]] + c && b == [b[0]] + d;
      if k :| 0 <= k < |c| && k < |d| && c[..k] == d[..k] && c[k] < d[k] {
        assert a[..k + 1] == [a[0]] + c[..k] && b[..k + 1] == [b[0]] + d[..k];
        assert a[k + 1] < b[k + 1];
      }
      if k :| 0 <= k < |a| && k < |b| && a[..k] == b[..k] && a[k] < b[k] {
        assert k > 0;
        assert c[..k - 1] == a[1..k] == a[..k][1..] == b[..k][1..] == d[..k - 1];
        assert c[k - 1] < d[k - 1];
      }
    } else if a != [] && b != [] && a[0] < b[0] {
      assert a[..0] == b[..0];
    } else if a != [] && b != [] {
      forall k | 0 < k < |a| && k < |b| ensures a[..k] != b[..k] {
        assert a[..k][0] != b[..k][0];
      }
    }
  }

  lemma {:induction false} LexIrreflexive(a: string)
    ensures !LexLess(a, a)
  {
    if a != [] {
      LexIrreflexive(a[1..]);
    }
  }

  lemma {:induction false} LexTransitive(a: string, b: string, c: string)
    requires LexLess(a, b) && LexLess(b, c)
    ensures LexLess(a, c)
  {
    if a != [] && a[0] == b[0] && b[0] == c[0] {
      LexTransitive(a[1..], b[1..], c[1..]);
    }
  }

  lemma {:induction false} LexTotal(a: string, b: string)
    ensures a == b || LexLess(a, b) || LexLess(b, a)
  {
    if a != [] && b != [] && a[0] == b[0] {
      LexTotal(a[1..], b[1..]);
      if a[1..] == b[1..] {
        assert a == [a[0]] + a[1..] == b;
      }
    }
  }

  /** The strict order of `ORDER BY key, id`. */
  predicate Before(key: map<string, int>, a: string, b: string)
    requires a in key && b in key
  {
    key[a] < key[b] || (key[a] == key[b] && LexLess(a, b))
  }

  lemma BeforeIsStrictTotal(key: map<string, int>, a: string, b: string)
    requires a in key && b in key
    ensures !Before(key, a, a)
    ensures a == b || Before(key, a, b) || Before(key, b, a)
    ensures !(Before(key, a, b) && Before(key, b, a))
  {
    LexIrreflexive(a);
    LexTotal(a, b);
    if Before(key, a, b) && Before(key, b, a) {
      LexTransitive(a, b, a);
    }
  }

  lemma BeforeTransitive(key: map<string, int>, a: string, b: string, c: string)
    requires a in key && b in key && c in key
    requires Before(key, a, b) && Before(key, b, c)
    ensures Before(key, a, c)
  {
    if key[a] == key[b] == key[c] {
      LexTransitive(a, b, c);
    }
  }

  predicate IsLeast(key: map<string, int>, a: string) {
    a in key && forall b :: b in key && b != a ==> Before(key, a, b)
  }

  lemma {:induction false} LeastExists(key: map<string, int>)
    requires key.Keys != {}
    ensures exists a :: IsLeast(key, a)
    decreases |key|
  {
    var x :| x in key;
    var rest := key - {x};
    if rest.Keys == {} {
      assert forall b :: b in key && b != x ==> b in rest;
      assert IsLeast(key, x);
    } else {
      assert rest.Keys == key.Keys - {x};
      LeastExists(rest);
      var y :| IsLeast(rest, y);
      BeforeIsStrictTotal(key, x, y);
      if Before(key, x, y) {
        forall b | b in key && b != x ensures Before(key, x, b) {
          assert b in rest;
          if b != y { BeforeTransitive(key, x, y, b); }
        }
        assert IsLeast(key, x);
      } else {
        assert forall b :: b in key && b != x ==> b in rest;
        assert IsLeast(key, y);
      }
    }
  }

  lemma LeastUnique(key: map<string, int>, a: string, b: string)
    requires IsLeast(key, a) && IsLeast(key, b)
    ensures a == b
  {
    if a != b { BeforeIsStrictTotal(key, a, b); }
  }

  function Least(key: map<string, int>): (a: string)
    requires key.Keys != {}
    ensures IsLeast(key, a)
  {
    LeastExists(key);
    assert forall x, y :: IsLeast(key, x) && IsLeast(key, y) ==> x == y by {
      forall x, y | IsLeast(key, x) && IsLeast(key, y) ensures x == y { LeastUnique(key, x, y); }
    }
    var a :| IsLeast(key, a);
    a
  }

  /** `SELECT id ... ORDER BY key, id`. */
  function Listing(key: map<string, int>): (ids: seq<string>)
    decreases |key|
  {
    if key.Keys == {} then []
    else
      var a := Least(key);
      assert (key - {a}).Keys == key.Keys - {a};
      [a] + Listing(key - {a})
  }

  /** `ids` holds every key once, in the order of `Before`. */
  ghost predicate IsListing(key: map<string, int>, ids: seq<string>) {
    && (forall x :: x in ids <==> x in key)
    && (forall i, j :: 0 <= i < j < |ids| ==> ids[i] in key && ids[j] in key && Before(key, ids[i], ids[j]))
  }

  /** The least key in front of a listing of the others is a listing. */
  lemma ListingCons(key: map<string, int>, a: string, ids: seq<string>)
    requires IsLeast(key, a) && IsListing(key - {a}, ids)
    ensures IsListing(key, [a] + ids)
  {
    var rest, all := key - {a}, [a] + ids;
    forall x ensures x in all <==> x in key {
      assert x in ids <==> x in rest;
    }
    forall i, j | 0 <= i < j < |all| ensures all[i] in key && all[j] in key && Before(key, all[i], all[j]) {
      assert all[j] == ids[j - 1] && ids[j - 1] in ids;
      if i > 0 { assert Before(rest, ids[i - 1], ids[j - 1]); }
    }
  }

  lemma {:induction false} ListingIsListing(key: map<string, int>)
    ensures IsListing(key, Listing(key))
    decreases |key|
  {
    if key.Keys != {} {
      var a := Least(key);
      assert (key - {a}).Keys == key.Keys - {a};
      ListingIsListing(key - {a});
      ListingCons(key, a, Listing(key - {a}));
    }
  }

  lemma ListingHead(key: map<string, int>, ids: seq<string>)
    requires IsListing(key, ids) && key.Keys != {}
    ensures ids != [] && ids[0] == Least(key)
  {
    var a := Least(key);
    assert a in ids && ids[0] in ids;
    var k :| 0 <= k < |ids| && ids[k] == a;
    if k > 0 { BeforeIsStrictTotal(key, ids[0], a); }
  }

  lemma ListingDistinct(key: map<string, int>, ids: seq<string>, i: nat, j: nat)
    requires IsListing(key, ids) && i < j < |ids|
    ensures ids[i] != ids[j]
  {
    BeforeIsStrictTotal(key, ids[i], ids[j]);
  }

  lemma ListingTail(key: map<string, int>, ids: seq<string>)
    requires IsListing(key, ids) && ids != []
    ensures IsListing(key - {ids[0]}, ids[1..])
  {
    var rest := key - {ids[0]};
    forall x ensures x in ids[1..] <==> x in rest {
      if x in ids[1..] {
        var i :| 0 < i < |ids| && ids[i] == x;
        ListingDistinct(key, ids, 0, i);
      }
    }
    forall i, j | 0 <= i < j < |ids[1..]|
      ensures ids[1..][i] in rest && ids[1..][j] in rest && Before(rest, ids[1..][i], ids[1..][j])
    {
      ListingDistinct(key, ids, 0, i + 1);
      ListingDistinct(key, ids, 0, j + 1);
      assert Before(key, ids[i + 1], ids[j + 1]);
    }
  }

  lemma {:induction false} ListingUnique(key: map<string, int>, ids: seq<string>)
    requires IsListing(key, ids)
    ensures ids == Listing(key)
    decreases |key|
  {
    if key.Keys == {} {
      assert forall x :: x !in ids;
    } else {
      ListingHead(key, ids);
      ListingTail(key, ids);
      assert (key - {ids[0]}).Keys == key.Keys - {ids[0]};
      ListingUnique(key - {ids[0]}, ids[1..]);
    }
  }

  lemma DropKeys(key: map<string, int>, ids: seq<string>, n: nat, x: string)
    requires IsListing(key, ids) && n <= |ids|
    ensures x in ids[n..] <==> x in key && x !in ids[..n]
  {
    assert x in key <==> x in ids;
    if x in ids[n..] {
      var i :| n <= i < |ids| && ids[i] == x;
      if x in ids[..n] {
        var j :| 0 <= j < n && ids[j] == x;
        ListingDistinct(key, ids, j, i);
      }
    } else {
      assert ids == ids[..n] + ids[n..];
    }
  }

  /** Removing the first `n` listed keys leaves the rest of the listing. */
  lemma DropIsListing(key: map<string, int>, ids: seq<string>, rest: map<string, int>, n: nat)
    requires IsListing(key, ids) && n <= |ids|
    requires rest == map x | x in key && x !in ids[..n] :: key[x]
    ensures IsListing(rest, ids[n..])
  {
    forall x ensures x in ids[n..] <==> x in rest { DropKeys(key, ids, n, x); }
    forall i, j | 0 <= i < j < |ids[n..]|
      ensures ids[n..][i] in rest && ids[n..][j] in rest && Before(rest, ids[n..][i], ids[n..][j])
    {
      assert ids[n..][i] in ids[n..] && ids[n..][j] in ids[n..];
      assert Before(key, ids[n + i], ids[n + j]);
    }
  }

  lemma ListingDrop(key: map<string, int>, rest: map<string, int>, n: nat)
    requires n <= |Listing(key)|
    requires rest == map x | x in key && x !in Listing(key)[..n] :: key[x]
    ensures Listing(rest) == Listing(key)[n..]
  {
    hide IsListing;
    ListingIsListing(key);
    DropIsListing(key, Listing(key), rest, n);
    ListingUnique(rest, Listing(key)[n..]);
  }

  predicate Ascending(ids: seq<string>) {
    forall i, j :: 0 <= i < j < |ids| ==> LexLess(ids[i], ids[j])
  }

  lemma AscendingTail(ids: seq<string>)
    requires Ascending(ids) && ids != []
    ensures Ascending(ids[1..])
    ensures forall x :: x in ids[1..] ==> LexLess(ids[0], x)
    ensures forall x :: x in ids <==> x == ids[0] || x in ids[1..]
  {
    assert ids == [ids[0]] + ids[1..];
    forall i, j | 0 <= i < j < |ids[1..]| ensures LexLess(ids[1..][i], ids[1..][j]) {
      assert LexLess(ids[i + 1], ids[j + 1]);
    }
    forall x | x in ids[1..] ensures LexLess(ids[0], x) {
      var j :| 0 <= j < |ids[1..]| && ids[1..][j] == x;
      assert LexLess(ids[0], ids[j + 1]);
    }
  }

  /** `sorted(ids)` of a set of identifiers. */
  function SortIds(ids: set<string>): (sorted: seq<string>)
    ensures forall x :: x in sorted <==> x in ids
    ensures Ascending(sorted)
  {
    var key := map x | x in ids :: 0;
    ListingIsListing(key);
    var l := Listing(key);
    assert forall x :: x in l <==> x in key;
    assert forall i, j :: 0 <= i < j < |l| ==> Before(key, l[i], l[j]);
    l
  }
}
