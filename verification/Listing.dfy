/** Sorted listings of finite sets. */
module Listing {

  ghost predicate StrictOrder<T(!new)>(before: (T, T) -> bool) {
    && (forall a, b :: before(a, b) ==> !before(b, a))
    && (forall a, b, c :: before(a, b) && before(b, c) ==> before(a, c))
  }

  ghost predicate Listed<T>(items: seq<T>, before: (T, T) -> bool) {
    forall i, j :: 0 <= i < j < |items| ==> before(items[i], items[j])
  }

  lemma FirstComesOnce<T(!new)>(items: seq<T>, before: (T, T) -> bool)
    requires StrictOrder(before) && Listed(items, before) && items != []
    ensures forall x :: x in items[1..] <==> x in items && x != items[0]
  {
    assert items == [items[0]] + items[1..];
    assert forall i :: 0 <= i < |items[1..]| ==> before(items[0], items[1..][i]);
  }

  /** A set has one sorted listing: listings of the same members are the same list. */
  lemma {:induction false} SortedListingIsUnique<T(!new)>(a: seq<T>, b: seq<T>, before: (T, T) -> bool)
    requires StrictOrder(before) && Listed(a, before) && Listed(b, before)
    requires forall x :: x in a <==> x in b
    ensures a == b
    decreases |a|
  {
    if b != [] {
      assert b[0] in b && b[0] in a;
    }
    if a != [] {
      assert a[0] in a && a[0] in b;
      var i :| 0 <= i < |b| && b[i] == a[0];
      assert b[0] in b && b[0] in a;
      var j :| 0 <= j < |a| && a[j] == b[0];
      assert i == 0;
      FirstComesOnce(a, before);
      FirstComesOnce(b, before);
      assert a == [a[0]] + a[1..] && b == [b[0]] + b[1..];
      SortedListingIsUnique(a[1..], b[1..], before);
    }
  }

  ghost predicate Total<T(!new)>(before: (T, T) -> bool) {
    forall a, b :: a == b || before(a, b) || before(b, a)
  }

  /** A sorted list that names exactly these. */
  ghost predicate Lists<T(!new)>(items: seq<T>, members: set<T>, before: (T, T) -> bool) {
    Listed(items, before) && forall x :: x in items <==> x in members
  }

  /** Sorted listings are equal exactly when the sets are. */
  lemma ListingsTellTheSets<T(!new)>(a: seq<T>, b: seq<T>, s: set<T>, t: set<T>, before: (T, T) -> bool)
    requires StrictOrder(before) && Lists(a, s, before) && Lists(b, t, before)
    ensures a == b <==> s == t
  {
    if s == t {
      SortedListingIsUnique(a, b, before);
    }
    assert a == b ==> forall x :: x in s <==> x in t;
  }

  predicate IsLeast<T(==)>(x: T, items: set<T>, before: (T, T) -> bool) {
    x in items && forall y :: y in items && y != x ==> before(x, y)
  }

  /** A non-empty set has a least member. */
  lemma {:induction false} HasLeast<T(!new)>(items: set<T>, before: (T, T) -> bool) returns (x: T)
    requires StrictOrder(before) && Total(before) && items != {}
    ensures IsLeast(x, items, before)
    decreases |items|
  {
    x :| x in items;
    var rest := items - {x};
    assert items == rest + {x};
    if rest != {} {
      var z := HasLeast(rest, before);
      if before(z, x) {
        x := z;
      }
    }
  }

  /** The list holds, in order, the members that come before all those left. */
  ghost predicate ListedSoFar<T(!new)>(out: seq<T>, items: set<T>, left: set<T>, before: (T, T) -> bool) {
    && Lists(out, items - left, before)
    && forall i, y :: 0 <= i < |out| && y in left ==> before(out[i], y)
  }

  lemma ListNext<T(!new)>(out: seq<T>, items: set<T>, left: set<T>, x: T, before: (T, T) -> bool)
    requires left <= items && ListedSoFar(out, items, left, before) && IsLeast(x, left, before)
    ensures ListedSoFar(out + [x], items, left - {x}, before)
  {
    assert items - (left - {x}) == items - left + {x};
  }

  method SortedListing<T(==, !new)>(items: set<T>, before: (T, T) -> bool) returns (out: seq<T>)
    requires StrictOrder(before) && Total(before)
    ensures Lists(out, items, before)
  {
    out := [];
    var left := items;
    while left != {}
      invariant left <= items && ListedSoFar(out, items, left, before)
      decreases left
    {
      ghost var least := HasLeast(left, before);
      var x :| x in left && IsLeast(x, left, before);
      ListNext(out, items, left, x, before);
      out := out + [x];
      left := left - {x};
    }
    assert items - left == items;
  }
}
