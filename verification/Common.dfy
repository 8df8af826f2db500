/** Sequence and counting facts shared by the models. */
module Common {

  datatype Option<+T> = None | Some(value: T)

  predicate NoDuplicates<T(==)>(s: seq<T>) {
    forall i, j :: 0 <= i < j < |s| ==> s[i] != s[j]
  }

  /** The values that occur in a sequence. */
  function Elements<T>(s: seq<T>): set<T> {
    set x | x in s
  }

  /** A sequence longer than the set its values come from repeats a value. */
  lemma {:induction false} Pigeonhole<T>(s: seq<T>, values: set<T>) returns (i: nat, j: nat)
    requires |s| > |values|
    requires forall k :: 0 <= k < |s| ==> s[k] in values
    ensures i < j < |s| && s[i] == s[j]
  {
    var last := |s| - 1;
    var rest := s[..last];
    if s[last] in rest {
      j := last;
      i :| 0 <= i < last && rest[i] == s[last];
    } else {
      assert forall k :: 0 <= k < |rest| ==> rest[k] in values - {s[last]};
      i, j := Pigeonhole(rest, values - {s[last]});
    }
  }

  /** A sequence has at most as many distinct values as positions. */
  lemma {:induction false} ElementsBound<T>(s: seq<T>)
    ensures |Elements(s)| <= |s|
  {
    if s != [] {
      var rest := s[..|s| - 1];
      ElementsBound(rest);
      assert Elements(s) == Elements(rest) + {s[|s| - 1]};
    }
  }

  lemma {:induction false} DistinctCount<T>(s: seq<T>)
    requires NoDuplicates(s)
    ensures |Elements(s)| == |s|
  {
    if s != [] {
      var rest := s[..|s| - 1];
      DistinctCount(rest);
      assert Elements(s) == Elements(rest) + {s[|s| - 1]};
    }
  }

  /** Only a duplicate-free sequence has as many values as positions. */
  lemma FullCountIsDistinct<T>(s: seq<T>)
    requires |Elements(s)| == |s|
    ensures NoDuplicates(s)
  {
    forall i, j | 0 <= i < j < |s| ensures s[i] != s[j] {
      if s[i] == s[j] {
        var shorter := s[..j] + s[j + 1..];
        assert Elements(shorter) == Elements(s) by {
          forall x | x in s ensures x in shorter {
            var k :| 0 <= k < |s| && s[k] == x;
            if k < j {
              assert shorter[k] == x;
            } else if k > j {
              assert shorter[k - 1] == x;
            } else {
              assert shorter[i] == x;
            }
          }
        }
        ElementsBound(shorter);
        assert false;
      }
    }
  }

  /** A subset as large as the whole is the whole. */
  lemma SubsetOfSameSize<T>(small: set<T>, big: set<T>)
    requires small <= big && |small| >= |big|
    ensures small == big
  {
    assert big == small + (big - small);
    assert |big| == |small| + |big - small|;
  }

  lemma SubsetSize<T>(small: set<T>, big: set<T>)
    requires small <= big
    ensures |small| <= |big|
  {
    assert big == small + (big - small);
  }

  /** The sum of `f` over a finite set. */
  ghost function SumOver<T(!new)>(keys: set<T>, f: T -> int): int {
    if keys == {} then 0
    else
      var k :| k in keys;
      f(k) + SumOver(keys - {k}, f)
  }

  /** Any member may be taken out first. */
  lemma {:induction false} SumTakeOut<T(!new)>(keys: set<T>, f: T -> int, k: T)
    requires k in keys
    ensures SumOver(keys, f) == f(k) + SumOver(keys - {k}, f)
    decreases |keys|
  {
    var j :| j in keys && SumOver(keys, f) == f(j) + SumOver(keys - {j}, f);
    if j != k {
      SumTakeOut(keys - {j}, f, k);
      SumTakeOut(keys - {k}, f, j);
      assert keys - {j} - {k} == keys - {k} - {j};
    }
  }

  lemma {:induction false} SumSame<T(!new)>(keys: set<T>, f: T -> int, g: T -> int)
    requires forall k :: k in keys ==> f(k) == g(k)
    ensures SumOver(keys, f) == SumOver(keys, g)
    decreases |keys|
  {
    if keys != {} {
      var k :| k in keys;
      SumTakeOut(keys, f, k);
      SumTakeOut(keys, g, k);
      SumSame(keys - {k}, f, g);
    }
  }

  /** Changing `f` at one member changes the sum by as much. */
  lemma SumChange<T(!new)>(keys: set<T>, f: T -> int, g: T -> int, k: T)
    requires k in keys && forall j :: j in keys && j != k ==> f(j) == g(j)
    ensures SumOver(keys, g) == SumOver(keys, f) + g(k) - f(k)
  {
    SumTakeOut(keys, f, k);
    SumTakeOut(keys, g, k);
    SumSame(keys - {k}, f, g);
  }
}
