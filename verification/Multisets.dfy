/** Reordering a sequence reorders what is mapped or filtered out of it. */
module Multisets {

  function Mapped<T, U>(s: seq<T>, f: T -> U): seq<U> {
    seq(|s|, i requires 0 <= i < |s| => f(s[i]))
  }

  function Filtered<T>(s: seq<T>, p: T -> bool): seq<T> {
    if s == [] then []
    else
      var x := s[|s| - 1];
      Filtered(s[..|s| - 1], p) + if p(x) then [x] else []
  }

  lemma {:induction false} FilteredAll<T>(s: seq<T>, p: T -> bool)
    requires forall x :: x in s ==> p(x)
    ensures Filtered(s, p) == s
  {
    if s != [] {
      assert s[|s| - 1] in s;
      FilteredAll(s[..|s| - 1], p);
    }
  }

  lemma {:induction false} FilteredMembers<T>(s: seq<T>, p: T -> bool)
    ensures forall x :: x in Filtered(s, p) <==> x in s && p(x)
  {
    if s != [] {
      FilteredMembers(s[..|s| - 1], p);
    }
  }

  lemma {:induction false} FilteredCount<T>(s: seq<T>, p: T -> bool, x: T)
    ensures multiset(Filtered(s, p))[x] == if p(x) then multiset(s)[x] else 0
  {
    if s != [] {
      FilteredCount(s[..|s| - 1], p, x);
      assert s == s[..|s| - 1] + [s[|s| - 1]];
    }
  }

  lemma FilteredReorder<T(!new)>(a: seq<T>, b: seq<T>, p: T -> bool)
    requires multiset(a) == multiset(b)
    ensures multiset(Filtered(a, p)) == multiset(Filtered(b, p))
  {
    var fa, fb := multiset(Filtered(a, p)), multiset(Filtered(b, p));
    forall x: T ensures fa[x] == fb[x] {
      FilteredCount(a, p, x);
      FilteredCount(b, p, x);
    }
    assert fa == fb;
  }

  lemma MappedAppend<T, U>(s: seq<T>, x: T, f: T -> U)
    ensures Mapped(s + [x], f) == Mapped(s, f) + [f(x)]
  {
  }

  lemma MappedRemove<T, U>(s: seq<T>, k: nat, f: T -> U)
    requires k < |s|
    ensures multiset(s) == multiset(s[..k] + s[k + 1..]) + multiset{s[k]}
    ensures multiset(Mapped(s, f)) == multiset(Mapped(s[..k] + s[k + 1..], f)) + multiset{f(s[k])}
  {
    assert s == s[..k] + [s[k]] + s[k + 1..];
    var m := Mapped(s, f);
    assert m == m[..k] + [m[k]] + m[k + 1..];
    assert Mapped(s[..k] + s[k + 1..], f) == m[..k] + m[k + 1..];
  }

  lemma {:induction false} MappedReorder<T, U>(a: seq<T>, b: seq<T>, f: T -> U)
    requires multiset(a) == multiset(b)
    ensures multiset(Mapped(a, f)) == multiset(Mapped(b, f))
    decreases |a|
  {
    if a == [] {
      assert |multiset(b)| == |b|;
      assert b == [];
    } else {
      var x := a[|a| - 1];
      assert a[|a| - 1] in multiset(b);
      var k :| 0 <= k < |b| && b[k] == x;
      MappedRemove(a, |a| - 1, f);
      MappedRemove(b, k, f);
      var a', b' := a[..|a| - 1] + a[|a|..], b[..k] + b[k + 1..];
      assert multiset(a') == multiset(a) - multiset{x};
      assert multiset(b') == multiset(b) - multiset{x};
      MappedReorder(a', b', f);
    }
  }

  lemma WithoutLast<T>(s: seq<T>)
    requires s != []
    ensures multiset(s[..|s| - 1]) == multiset(s) - multiset{s[|s| - 1]}
  {
    assert s == s[..|s| - 1] + [s[|s| - 1]];
  }

  lemma WithoutAt<T>(s: seq<T>, k: nat)
    requires k < |s|
    ensures multiset(s[..k] + s[k + 1..]) == multiset(s) - multiset{s[k]}
  {
    assert s == s[..k] + [s[k]] + s[k + 1..];
  }

  lemma SameLength<T>(a: seq<T>, b: seq<T>)
    requires multiset(a) == multiset(b)
    ensures |a| == |b|
  {
    assert |multiset(a)| == |a| && |multiset(b)| == |b|;
  }

  /** Where the last element of `a` sits in a reordering of it. */
  lemma MatchLast<T>(a: seq<T>, b: seq<T>) returns (k: nat)
    requires a != [] && multiset(a) == multiset(b)
    ensures k < |b| && b[k] == a[|a| - 1]
    ensures multiset(a[..|a| - 1]) == multiset(b[..k] + b[k + 1..])
  {
    var n := |a| - 1;
    assert a[n] in multiset(b);
    k :| 0 <= k < |b| && b[k] == a[n];
    WithoutLast(a);
    WithoutAt(b, k);
  }
}
