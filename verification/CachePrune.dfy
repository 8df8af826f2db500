/** Pruning of the content cache: by age, then by size, least recently accessed first. */
module CachePrune {
  import opened Common
  import opened Sorting
  import opened Multisets

  datatype Entry = Entry(hash: string, size: int, accessedAt: int)

  /** A limit that is not positive is no limit. */
  datatype Limits = Limits(now: int, maxAge: int, maxSize: int)

  predicate Aged(l: Limits, e: Entry) {
    l.maxAge > 0 && l.now - e.accessedAt > l.maxAge
  }

  predicate TooLarge(l: Limits, size: int) {
    l.maxSize > 0 && size > l.maxSize
  }

  function Before(): (Entry, Entry) -> bool {
    (a: Entry, b: Entry) => a.accessedAt < b.accessedAt
  }

  function Size(s: seq<Entry>): int {
    if s == [] then 0 else s[0].size + Size(s[1..])
  }

  function Hashes(s: seq<Entry>): seq<string> {
    if s == [] then [] else Hashes(s[..|s| - 1]) + [s[|s| - 1].hash]
  }

  lemma {:induction false} HashAt(s: seq<Entry>)
    ensures |Hashes(s)| == |s| && forall i :: 0 <= i < |s| ==> Hashes(s)[i] == s[i].hash
  {
    if s != [] {
      HashAt(s[..|s| - 1]);
    }
  }

  /**
   * Deleting the first `k` of the entries in access order meets both limits, and every
   * deletion was called for: the entry had aged, or what it headed was still too large.
   */
  ghost predicate IsPlan(l: Limits, s: seq<Entry>, k: nat) {
    && k <= |s|
    && (forall i :: 0 <= i < |s| && Aged(l, s[i]) ==> i < k)
    && !TooLarge(l, Size(s[k..]))
    && (forall j :: 0 <= j < k ==> Aged(l, s[j]) || TooLarge(l, Size(s[j..])))
  }

  /** The plan in terms of the limits: what is left keeps both, and every deletion broke one. */
  lemma PlanMeaning(l: Limits, s: seq<Entry>, k: nat)
    requires IsPlan(l, s, k)
    ensures l.maxAge > 0 ==> forall i :: k <= i < |s| ==> l.now - s[i].accessedAt <= l.maxAge
    ensures l.maxSize > 0 ==> Size(s[k..]) <= l.maxSize
    ensures forall j :: 0 <= j < k ==>
              || (l.maxAge > 0 && l.now - s[j].accessedAt > l.maxAge)
              || (l.maxSize > 0 && Size(s[j..]) > l.maxSize)
  {
    forall i | l.maxAge > 0 && k <= i < |s| ensures l.now - s[i].accessedAt <= l.maxAge {
      assert !Aged(l, s[i]);
    }
    forall j | 0 <= j < k
      ensures (l.maxAge > 0 && l.now - s[j].accessedAt > l.maxAge) || (l.maxSize > 0 && Size(s[j..]) > l.maxSize)
    {
      assert Aged(l, s[j]) || TooLarge(l, Size(s[j..]));
    }
  }

  /** The limits and the access order leave no choice. */
  lemma PlanIsUnique(l: Limits, s: seq<Entry>, k: nat, k': nat)
    requires IsPlan(l, s, k) && IsPlan(l, s, k')
    ensures k == k'
  {
  }

  /** No deleted entry was accessed after a kept one. */
  lemma LeastRecentlyUsedGoFirst(l: Limits, s: seq<Entry>, k: nat, deleted: Entry, kept: Entry)
    requires SortedBy(Before(), s) && IsPlan(l, s, k)
    requires deleted in s[..k] && kept in s[k..]
    ensures deleted.accessedAt <= kept.accessedAt
  {
    var i :| 0 <= i < k && s[i] == deleted;
    var j :| 0 <= j < |s[k..]| && s[k..][j] == kept;
    assert s[k + j] == kept;
    assert !Before()(s[k + j], s[i]);
  }

  lemma {:induction false} SizeSplit(s: seq<Entry>, k: nat)
    requires k <= |s|
    ensures Size(s) == Size(s[..k]) + Size(s[k..])
  {
    if k == 0 {
      assert s[0..] == s;
    } else {
      SizeSplit(s[1..], k - 1);
      assert s[..k][1..] == s[1..][..k - 1];
      assert s[1..][k - 1..] == s[k..];
    }
  }

  lemma SizeOne(e: Entry)
    ensures Size([e]) == e.size
  {
    assert [e][1..] == [];
  }

  lemma SizeWithout(s: seq<Entry>, k: nat)
    requires k < |s|
    ensures Size(s) == Size(s[..k] + s[k + 1..]) + s[k].size
  {
    SizeSplit(s, k);
    assert s[k..][1..] == s[k + 1..];
    var without := s[..k] + s[k + 1..];
    SizeSplit(without, k);
    assert without[..k] == s[..k] && without[k..] == s[k + 1..];
  }

  lemma {:induction false} SizeReorder(a: seq<Entry>, b: seq<Entry>)
    requires multiset(a) == multiset(b)
    ensures Size(a) == Size(b)
    decreases |a|
  {
    SameLength(a, b);
    if a != [] {
      var n := |a| - 1;
      var k := MatchLast(a, b);
      SizeWithout(b, k);
      SizeWithout(a, n);
      assert a[..n] + a[n + 1..] == a[..n];
      SizeReorder(a[..n], b[..k] + b[k + 1..]);
    }
  }

  /** Pruning what a pruning kept, with the same limits and clock, deletes nothing, however ties are sorted. */
  lemma PruneAgainDeletesNothing(l: Limits, s: seq<Entry>, k: nat, s': seq<Entry>, k': nat)
    requires IsPlan(l, s, k) && IsSortOf(Before(), s[k..], s') && IsPlan(l, s', k')
    ensures k' == 0
  {
    SizeReorder(s[k..], s');
    assert s'[0..] == s';
    forall i | 0 <= i < |s'| ensures !Aged(l, s'[i]) {
      assert s'[i] in multiset(s');
      var j :| 0 <= j < |s[k..]| && s[k..][j] == s'[i];
      assert s[k + j] == s'[i];
    }
    PlanIsUnique(l, s', 0, k');
  }

  predicate DistinctHashes(s: seq<Entry>) {
    forall i, j :: 0 <= i < j < |s| ==> s[i].hash != s[j].hash
  }

  lemma DistinctReorder(a: seq<Entry>, b: seq<Entry>)
    requires multiset(a) == multiset(b) && DistinctHashes(a)
    ensures DistinctHashes(b)
  {
    forall i, j | 0 <= i < j < |b| ensures b[i].hash != b[j].hash {
      assert b[i] in multiset(a) && b[j] in multiset(a);
      if b[i] == b[j] {
        Repeated(b, i, j);
        OnlyOnce(a, b[i]);
      }
    }
  }

  lemma Repeated(s: seq<Entry>, i: nat, j: nat)
    requires i < j < |s| && s[i] == s[j]
    ensures multiset(s)[s[i]] >= 2
  {
    assert s == s[..j] + [s[j]] + s[j + 1..];
    assert s[..j][i] == s[i];
    assert s[i] in multiset(s[..j]);
  }

  lemma {:induction false} OnlyOnce(s: seq<Entry>, e: Entry)
    requires DistinctHashes(s)
    ensures multiset(s)[e] <= 1
  {
    if s != [] {
      var front := s[..|s| - 1];
      OnlyOnce(front, e);
      assert s == front + [s[|s| - 1]];
      if s[|s| - 1] == e {
        assert e !in front;
      }
    }
  }

  lemma AgedComeFirst(l: Limits, s: seq<Entry>, a: nat, i: nat)
    requires SortedBy(Before(), s) && a <= i < |s| && Aged(l, s[i])
    ensures Aged(l, s[a])
  {
    assert a < i ==> !Before()(s[i], s[a]);
  }

  /** Marks the aged entries, which head the access order. */
  method MarkAged(l: Limits, s: seq<Entry>) returns (toDelete: seq<string>, totalSize: int)
    requires SortedBy(Before(), s)
    ensures |toDelete| <= |s| && toDelete == Hashes(s[..|toDelete|])
    ensures forall i :: 0 <= i < |s| ==> (Aged(l, s[i]) <==> i < |toDelete|)
    ensures totalSize == Size(s[|toDelete|..])
  {
    toDelete, totalSize := [], 0;
    assert s[0..0] == [];
    for i := 0 to |s|
      invariant |toDelete| <= i && toDelete == Hashes(s[..|toDelete|])
      invariant forall j :: 0 <= j < i ==> (Aged(l, s[j]) <==> j < |toDelete|)
      invariant totalSize == Size(s[|toDelete|..i])
    {
      if Aged(l, s[i]) {
        AgedComeFirst(l, s, |toDelete|, i);
        assert |toDelete| == i;
        MarkNext(s, i);
        toDelete := toDelete + [s[i].hash];
      } else {
        SizeGrows(s, |toDelete|, i);
        totalSize := totalSize + s[i].size;
      }
    }
    assert s[|toDelete|..|s|] == s[|toDelete|..];
  }

  lemma MarkNext(s: seq<Entry>, k: nat)
    requires k < |s|
    ensures Hashes(s[..k]) + [s[k].hash] == Hashes(s[..k + 1])
    ensures s[k + 1..k + 1] == []
    ensures Size(s[k..]) == s[k].size + Size(s[k + 1..])
  {
    assert s[k..][1..] == s[k + 1..];
    assert s[..k + 1][..k] == s[..k];
  }

  lemma SizeGrows(s: seq<Entry>, a: nat, i: nat)
    requires a <= i < |s|
    ensures Size(s[a..i + 1]) == Size(s[a..i]) + s[i].size
  {
    var t := s[a..i + 1];
    SizeSplit(t, i - a);
    assert t[..i - a] == s[a..i] && t[i - a..] == [s[i]];
    SizeOne(s[i]);
  }

  lemma MarkedIsEarlier(s: seq<Entry>, k: nat, i: nat)
    requires DistinctHashes(s) && k <= |s| && i < |s|
    ensures s[i].hash in Hashes(s[..k]) <==> i < k
  {
    var marked := Hashes(s[..k]);
    HashAt(s[..k]);
    assert forall j :: 0 <= j < k ==> marked[j] == s[j].hash;
    if i < k {
      assert marked[i] == s[i].hash;
    }
  }

  /** Entries `from` up to `k` are marked for size, and `size` is what is left. */
  ghost predicate Marking(l: Limits, s: seq<Entry>, from: nat, k: nat, size: int) {
    && from <= k <= |s|
    && size == Size(s[k..])
    && (forall j :: from <= j < k ==> TooLarge(l, Size(s[j..])))
  }

  lemma MarkingStep(l: Limits, s: seq<Entry>, from: nat, k: nat, size: int)
    requires Marking(l, s, from, k, size) && TooLarge(l, size) && k < |s|
    ensures Marking(l, s, from, k + 1, size - s[k].size)
    ensures Hashes(s[..k]) + [s[k].hash] == Hashes(s[..k + 1])
  {
    MarkNext(s, k);
  }

  /** Marks on from the oldest unmarked entry until the rest is small enough. */
  method MarkExcess(l: Limits, s: seq<Entry>, marked: seq<string>, size: int)
      returns (toDelete: seq<string>, totalSize: int)
    requires DistinctHashes(s) && l.maxSize > 0
    requires Marking(l, s, |marked|, |marked|, size) && marked == Hashes(s[..|marked|])
    ensures Marking(l, s, |marked|, |toDelete|, totalSize) && toDelete == Hashes(s[..|toDelete|])
    ensures !TooLarge(l, totalSize)
  {
    toDelete := marked;
    totalSize := size;
    for i := 0 to |s|
      invariant |toDelete| == if i < |marked| then |marked| else i
      invariant Marking(l, s, |marked|, |toDelete|, totalSize)
      invariant toDelete == Hashes(s[..|toDelete|])
    {
      MarkedIsEarlier(s, |toDelete|, i);
      if s[i].hash in toDelete {
        continue;
      }
      if totalSize <= l.maxSize {
        break;
      }
      MarkingStep(l, s, |marked|, i, totalSize);
      toDelete := toDelete + [s[i].hash];
      totalSize := totalSize - s[i].size;
    }
  }

  /** What a pruning deletes from a listing with one entry per hash. */
  method PlanPrune(l: Limits, entries: seq<Entry>) returns (sorted: seq<Entry>, toDelete: seq<string>)
    requires DistinctHashes(entries)
    ensures IsSortOf(Before(), entries, sorted)
    ensures IsPlan(l, sorted, |toDelete|) && toDelete == Hashes(sorted[..|toDelete|])
  {
    sorted := Sort(entries, Before());
    DistinctReorder(entries, sorted);
    var totalSize;
    toDelete, totalSize := MarkAged(l, sorted);
    if l.maxSize > 0 && totalSize > l.maxSize {
      toDelete, totalSize := MarkExcess(l, sorted, toDelete, totalSize);
    }
  }

  ghost predicate Lists(files: map<string, Entry>, entries: seq<Entry>) {
    && DistinctHashes(entries)
    && (forall h :: h in files ==> files[h].hash == h && files[h] in entries)
    && (forall e :: e in entries ==> e.hash in files && files[e.hash] == e)
  }

  class Cache {
    var files: map<string, Entry>

    /** Deletes what the plan for the listing says, whatever order the directory walk lists the files in. */
    method Prune(l: Limits, entries: seq<Entry>) returns (ghost sorted: seq<Entry>, ghost k: nat)
      requires Lists(files, entries)
      modifies this
      ensures IsSortOf(Before(), entries, sorted) && IsPlan(l, sorted, k)
      ensures files == old(files) - Elements(Hashes(sorted[..k])) && Lists(files, sorted[k..])
      ensures forall h :: h in files ==> !Aged(l, files[h])
      ensures !TooLarge(l, Size(sorted[k..]))
      ensures forall h, g :: h in old(files) && h !in files && g in files ==>
          old(files[h]).accessedAt <= files[g].accessedAt
    {
      var order, toDelete := PlanPrune(l, entries);
      ghost var was := files;
      sorted, k := order, |toDelete|;
      var i := 0;
      while i < |toDelete|
        invariant 0 <= i <= |toDelete|
        invariant files == was - Elements(toDelete[..i])
      {
        assert Elements(toDelete[..i + 1]) == Elements(toDelete[..i]) + {toDelete[i]};
        files := files - {toDelete[i]};
        i := i + 1;
      }
      assert toDelete[..i] == toDelete;
      PrunedFiles(l, was, entries, sorted, k);
    }
  }

  lemma PrunedFiles(l: Limits, was: map<string, Entry>, entries: seq<Entry>, s: seq<Entry>, k: nat)
    requires Lists(was, entries) && IsSortOf(Before(), entries, s) && IsPlan(l, s, k)
    ensures var files := was - Elements(Hashes(s[..k]));
            && Lists(files, s[k..])
            && (forall h :: h in files ==> !Aged(l, files[h]))
            && (forall h, g :: h in was && h !in files && g in files ==> was[h].accessedAt <= files[g].accessedAt)
  {
    ListsReorder(was, entries, s);
    var files := was - Elements(Hashes(s[..k]));
    KeptListing(was, s, k);
    forall h | h in files ensures !Aged(l, files[h]) {
      KeptIsRecent(l, s, k, files[h]);
    }
    forall h, g | h in was && h !in files && g in files ensures was[h].accessedAt <= files[g].accessedAt {
      SplitListing(was, s, k, h);
      LeastRecentlyUsedGoFirst(l, s, k, was[h], files[g]);
    }
  }

  lemma KeptIsRecent(l: Limits, s: seq<Entry>, k: nat, e: Entry)
    requires IsPlan(l, s, k) && e in s[k..]
    ensures !Aged(l, e)
  {
    var j :| 0 <= j < |s[k..]| && s[k..][j] == e;
    assert s[k + j] == e;
  }

  lemma ListsReorder(files: map<string, Entry>, a: seq<Entry>, b: seq<Entry>)
    requires Lists(files, a) && multiset(b) == multiset(a)
    ensures Lists(files, b)
  {
    DistinctReorder(a, b);
    forall e ensures e in a <==> e in b {
      assert e in a <==> e in multiset(a);
      assert e in b <==> e in multiset(b);
    }
  }

  lemma SplitListing(was: map<string, Entry>, s: seq<Entry>, k: nat, h: string)
    requires Lists(was, s) && k <= |s| && h in was
    ensures h in Hashes(s[..k]) <==> was[h] !in s[k..]
    ensures h in Hashes(s[..k]) ==> was[h] in s[..k]
  {
    var i :| 0 <= i < |s| && s[i] == was[h];
    MarkedIsEarlier(s, k, i);
    var kept := s[k..];
    if i < k {
      assert s[..k][i] == was[h];
      forall m | 0 <= m < |kept| ensures kept[m] != was[h] {
        assert s[i].hash != s[k + m].hash;
      }
    } else {
      assert kept[i - k] == was[h];
    }
  }

  lemma KeptListing(was: map<string, Entry>, s: seq<Entry>, k: nat)
    requires Lists(was, s) && k <= |s|
    ensures Lists(was - Elements(Hashes(s[..k])), s[k..])
  {
    var files := was - Elements(Hashes(s[..k]));
    forall h | h in files ensures files[h] in s[k..] {
      SplitListing(was, s, k, h);
    }
    forall e | e in s[k..] ensures e.hash in files && files[e.hash] == e {
      assert e in s;
      SplitListing(was, s, k, e.hash);
    }
  }
}
