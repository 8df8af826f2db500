/** Sorting as its callers may rely on it: a permutation in order, in which ties may fall either way. */
module Sorting {

  /** `less` orders elements up to ties. */
  ghost predicate StrictWeakOrder<T(!new)>(less: (T, T) -> bool) {
    && (forall a, b :: less(a, b) ==> !less(b, a))
    && (forall a, b, c :: !less(a, b) && !less(b, c) ==> !less(a, c))
  }

  ghost predicate SortedBy<T(!new)>(less: (T, T) -> bool, s: seq<T>) {
    forall i, j :: 0 <= i < j < |s| ==> !less(s[j], s[i])
  }

  /** `r` is one of the outcomes an unstable sort of `s` may have. */
  ghost predicate IsSortOf<T(!new)>(less: (T, T) -> bool, s: seq<T>, r: seq<T>) {
    SortedBy(less, r) && multiset(r) == multiset(s)
  }

  method Insert<T(!new)>(s: seq<T>, x: T, less: (T, T) -> bool) returns (r: seq<T>)
    requires StrictWeakOrder(less) && SortedBy(less, s)
    ensures SortedBy(less, r) && multiset(r) == multiset(s) + multiset{x}
  {
    var k := |s|;
    while k > 0 && less(x, s[k - 1])
      invariant 0 <= k <= |s|
      invariant forall j :: k <= j < |s| ==> less(x, s[j])
    {
      k := k - 1;
    }
    InsertSorted(s, x, k, less);
    r := s[..k] + [x] + s[k..];
    assert multiset(s) == multiset(s[..k]) + multiset(s[k..]) by { assert s == s[..k] + s[k..]; }
  }

  lemma InsertSorted<T(!new)>(s: seq<T>, x: T, k: nat, less: (T, T) -> bool)
    requires StrictWeakOrder(less) && SortedBy(less, s) && k <= |s|
    requires k > 0 ==> !less(x, s[k - 1])
    requires forall j :: k <= j < |s| ==> less(x, s[j])
    ensures SortedBy(less, s[..k] + [x] + s[k..])
  {
    var r := s[..k] + [x] + s[k..];
    forall i, j | 0 <= i < j < |r| ensures !less(r[j], r[i]) {
      var a, b := if i < k then i else i - 1, if j < k then j else j - 1;
      if i == k {
        assert r[j] == s[b];
      } else if j == k {
        assert r[i] == s[i];
        if i < k - 1 {
          assert !less(s[k - 1], s[i]);
        }
      } else {
        assert r[i] == s[a] && r[j] == s[b];
      }
    }
  }

  method Sort<T(!new)>(s: seq<T>, less: (T, T) -> bool) returns (r: seq<T>)
    requires StrictWeakOrder(less)
    ensures IsSortOf(less, s, r)
  {
    r := [];
    for i := 0 to |s|
      invariant SortedBy(less, r) && multiset(r) == multiset(s[..i])
    {
      assert s[..i + 1] == s[..i] + [s[i]];
      r := Insert(r, s[i], less);
    }
    assert s[..|s|] == s;
  }
}
