/** Sorting a slice by a string key, and when the sorted order is the only one. */
module Sorting {
  import opened Text

  ghost predicate SortedBy<T>(xs: seq<T>, key: T -> string) {
    forall i, j | 0 <= i < j < |xs| :: !Before(key(xs[j]), key(xs[i]))
  }

  /** Every element of s once, in key order: all that sort.Slice promises. */
  ghost predicate IsListing<T>(xs: seq<T>, s: set<T>, key: T -> string) {
    SortedBy(xs, key) && multiset(xs) == multiset(s)
  }

  ghost predicate DistinctKeys<T(!new)>(s: set<T>, key: T -> string) {
    forall x, y | x in s && y in s && key(x) == key(y) :: x == y
  }

  function Insert<T>(x: T, xs: seq<T>, key: T -> string): (r: seq<T>)
    requires SortedBy(xs, key)
    ensures SortedBy(r, key) && multiset(r) == multiset(xs) + multiset{x}
  {
    if xs == [] || !Before(key(xs[0]), key(x)) then
      assert forall j | 0 <= j < |xs| :: !Before(key(xs[j]), key(x)) by {
        forall j | 0 <= j < |xs| ensures !Before(key(xs[j]), key(x)) {
          if j > 0 { BeforeTransitive(key(x), key(xs[0]), key(xs[j])); }
        }
      }
      [x] + xs
    else
      assert xs == [xs[0]] + xs[1..];
      var rest := Insert(x, xs[1..], key);
      assert forall j | 0 <= j < |rest| :: !Before(key(rest[j]), key(xs[0])) by {
        forall j | 0 <= j < |rest| ensures !Before(key(rest[j]), key(xs[0])) {
          assert rest[j] in multiset(rest);
          BeforeTotal(key(xs[0]), key(x));
          if rest[j] != x {
            assert rest[j] in multiset(xs[1..]);
            assert rest[j] in xs[1..];
          }
        }
      }
      [xs[0]] + rest
  }

  /** The sorting step; the order among equal keys is not part of its contract. */
  function Sort<T>(xs: seq<T>, key: T -> string): (r: seq<T>)
    ensures SortedBy(r, key) && multiset(r) == multiset(xs)
  {
    if xs == [] then []
    else
      assert xs == [xs[0]] + xs[1..];
      Insert(xs[0], Sort(xs[1..], key), key)
  }

  lemma {:induction false} ListingExists<T(!new)>(s: set<T>, key: T -> string) returns (xs: seq<T>)
    ensures IsListing(xs, s, key)
  {
    if s == {} {
      xs := [];
    } else {
      var x :| x in s;
      var rest := ListingExists(s - {x}, key);
      xs := Insert(x, rest, key);
      assert s == (s - {x}) + {x};
    }
  }

  lemma HeadsAgree<T>(a: seq<T>, b: seq<T>, key: T -> string)
    requires SortedBy(a, key) && SortedBy(b, key) && multiset(a) == multiset(b)
    requires a != [] && b != []
    ensures a[0] in b && b[0] in a && key(a[0]) == key(b[0])
  {
    assert a[0] in multiset(b) && b[0] in multiset(a);
    var m :| 0 <= m < |a| && a[m] == b[0];
    var n :| 0 <= n < |b| && b[n] == a[0];
    BeforeIrreflexive(key(a[0]));
    BeforeTotal(key(a[0]), key(b[0]));
  }

  lemma TailsAgree<T>(a: seq<T>, b: seq<T>)
    requires a != [] && b != [] && a[0] == b[0] && multiset(a) == multiset(b)
    ensures multiset(a[1..]) == multiset(b[1..])
  {
    assert a == [a[0]] + a[1..] && b == [b[0]] + b[1..];
    assert multiset(a[1..]) == multiset(a) - multiset{a[0]};
    assert multiset(b[1..]) == multiset(b) - multiset{b[0]};
  }

  lemma {:induction false} SortedUnique<T>(a: seq<T>, b: seq<T>, key: T -> string)
    requires SortedBy(a, key) && SortedBy(b, key) && multiset(a) == multiset(b)
    requires forall x, y | x in a && y in a && key(x) == key(y) :: x == y
    ensures a == b
  {
    assert |a| == |multiset(a)| && |b| == |multiset(b)|;
    if a != [] {
      HeadsAgree(a, b, key);
      TailsAgree(a, b);
      SortedUnique(a[1..], b[1..], key);
      assert a == [a[0]] + a[1..] && b == [b[0]] + b[1..];
    }
  }

  lemma SwapIsPermutation<T>(xs: seq<T>, i: nat, j: nat)
    requires i < j < |xs|
    ensures multiset(xs[i := xs[j]][j := xs[i]]) == multiset(xs)
  {
  }

  /** Swapping two elements of equal key turns one listing into another. */
  lemma SwapKeepsListing<T>(xs: seq<T>, i: nat, j: nat, s: set<T>, key: T -> string)
    requires i < j < |xs| && key(xs[i]) == key(xs[j]) && IsListing(xs, s, key)
    ensures IsListing(xs[i := xs[j]][j := xs[i]], s, key)
  {
    SwapIsPermutation(xs, i, j);
    var ys := xs[i := xs[j]][j := xs[i]];
    forall m, n | 0 <= m < n < |ys| ensures !Before(key(ys[n]), key(ys[m])) {
      assert key(ys[m]) == key(xs[m]) && key(ys[n]) == key(xs[n]);
    }
  }

  /** The sorted order is fully determined exactly when no two elements share a
      key. */
  lemma ListingUniqueIff<T(!new)>(s: set<T>, key: T -> string)
    ensures DistinctKeys(s, key) <==>
            forall a, b | IsListing(a, s, key) && IsListing(b, s, key) :: a == b
  {
    forall a, b | DistinctKeys(s, key) && IsListing(a, s, key) && IsListing(b, s, key)
      ensures a == b
    {
      forall x | x in a ensures x in s {
        assert x in multiset(a) && x in multiset(s);
      }
      SortedUnique(a, b, key);
    }
    if !DistinctKeys(s, key) {
      var x, y :| x in s && y in s && key(x) == key(y) && x != y;
      var a := ListingExists(s, key);
      assert x in multiset(s) && y in multiset(s) && x in multiset(a) && y in multiset(a);
      var i :| 0 <= i < |a| && a[i] == x;
      var j :| 0 <= j < |a| && a[j] == y;
      var lo, hi := if i < j then i else j, if i < j then j else i;
      SwapKeepsListing(a, lo, hi, s, key);
      var b := a[lo := a[hi]][hi := a[lo]];
      assert b[lo] != a[lo];
    }
  }

  lemma CountedTwice<T>(xs: seq<T>, i: nat, j: nat)
    requires i < j < |xs| && xs[i] == xs[j]
    ensures multiset(xs)[xs[i]] >= 2
  {
    assert xs == xs[..j] + xs[j..];
    assert xs[i] in multiset(xs[..j]) by { assert xs[..j][i] == xs[i]; }
    assert xs[j] in multiset(xs[j..]) by { assert xs[j..][0] == xs[j]; }
  }
}
