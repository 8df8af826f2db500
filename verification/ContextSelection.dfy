/** Token-budgeted selection of context items: what is chosen. */
module ContextSelection {
  import opened Common
  import opened Sorting
  import opened Multisets

  newtype byte = x: int | 0 <= x < 256
  type Bytes = seq<byte>

  datatype Item = Item(id: string, kind: string, source: string, content: Bytes, tokenCount: int, priority: int,
      gatheredAt: Option<int>)

  datatype Budget = Budget(total: int, reservedForSystem: int, reservedForConversation: int, minPriority: int)

  function AvailableForContext(b: Budget): (n: nat)
    ensures n as int == b.total - b.reservedForSystem - b.reservedForConversation
        || (n == 0 && b.total < b.reservedForSystem + b.reservedForConversation)
  {
    var available := b.total - b.reservedForSystem - b.reservedForConversation;
    if available < 0 then 0 else available
  }

  /** Higher priority first, then fewer tokens. */
  predicate GoesFirst(a: Item, b: Item) {
    if a.priority != b.priority then a.priority > b.priority else a.tokenCount < b.tokenCount
  }

  type Caps = map<string, int>

  datatype Selection = Selection(included: seq<Item>, excluded: seq<Item>, used: int, perKind: map<string, int>)

  function Used(s: Selection, kind: string): int {
    if kind in s.perKind then s.perKind[kind] else 0
  }

  /** Neither the overall budget nor the cap of its kind leaves room for the item. */
  predicate NoRoom(available: nat, caps: Caps, s: Selection, item: Item) {
    s.used + item.tokenCount > available
        || (item.kind in caps && Used(s, item.kind) + item.tokenCount > caps[item.kind])
  }

  function Consider(available: nat, caps: Caps, s: Selection, item: Item): Selection {
    if NoRoom(available, caps, s, item) then s.(excluded := s.excluded + [item])
    else
      Selection(s.included + [item], s.excluded, s.used + item.tokenCount,
          s.perKind[item.kind := Used(s, item.kind) + item.tokenCount])
  }

  /** The greedy pass over the items in the given order. */
  function Select(available: nat, caps: Caps, items: seq<Item>): Selection {
    if items == [] then Selection([], [], 0, map[])
    else Consider(available, caps, Select(available, caps, items[..|items| - 1]), items[|items| - 1])
  }

  function Tokens(items: seq<Item>): int {
    if items == [] then 0 else Tokens(items[..|items| - 1]) + items[|items| - 1].tokenCount
  }

  function TokensOfKind(items: seq<Item>, kind: string): int {
    if items == [] then 0
    else TokensOfKind(items[..|items| - 1], kind) + if items[|items| - 1].kind == kind
        then items[|items| - 1].tokenCount else 0
  }

  lemma TokensAppend(items: seq<Item>, item: Item, kind: string)
    ensures Tokens(items + [item]) == Tokens(items) + item.tokenCount
    ensures TokensOfKind(items + [item], kind) == TokensOfKind(items, kind) + if item.kind == kind then item.tokenCount
        else 0
  {
    assert (items + [item])[..|items|] == items;
  }

  // What the greedy pass guarantees

  /** Every item is on exactly one side, and the counters are the sums they stand for. */
  lemma {:induction false} SelectionIsPartition(available: nat, caps: Caps, items: seq<Item>, kind: string)
    ensures var s := Select(available, caps, items);
            && multiset(s.included) + multiset(s.excluded) == multiset(items)
            && s.used == Tokens(s.included)
            && Used(s, kind) == TokensOfKind(s.included, kind)
  {
    if items != [] {
      var item := items[|items| - 1];
      var before := Select(available, caps, items[..|items| - 1]);
      SelectionIsPartition(available, caps, items[..|items| - 1], kind);
      assert items == items[..|items| - 1] + [item];
      ConsiderCounts(available, caps, before, item, kind);
    }
  }

  lemma ConsiderCounts(available: nat, caps: Caps, s: Selection, item: Item, kind: string)
    requires s.used == Tokens(s.included) && Used(s, kind) == TokensOfKind(s.included, kind)
    ensures var s' := Consider(available, caps, s, item);
            && s'.used == Tokens(s'.included) && Used(s', kind) == TokensOfKind(s'.included, kind)
            && multiset(s'.included) + multiset(s'.excluded)
                == multiset(s.included) + multiset(s.excluded) + multiset{item}
  {
    TokensAppend(s.included, item, kind);
  }

  predicate NoneOfKind(items: seq<Item>, kind: string) {
    forall i :: 0 <= i < |items| ==> items[i].kind != kind
  }

  predicate WithinLimits(available: nat, caps: Caps, s: Selection, kind: string) {
    s.used <= available && (kind in caps ==> Used(s, kind) <= caps[kind] || NoneOfKind(s.included, kind))
  }

  lemma ConsiderWithinLimits(available: nat, caps: Caps, s: Selection, item: Item, kind: string)
    requires WithinLimits(available, caps, s, kind)
    ensures WithinLimits(available, caps, Consider(available, caps, s, item), kind)
  {
    if !NoRoom(available, caps, s, item) && item.kind != kind && NoneOfKind(s.included, kind) {
      assert NoneOfKind(s.included + [item], kind);
    }
  }

  lemma {:induction false} SelectWithinLimits(available: nat, caps: Caps, items: seq<Item>, kind: string)
    ensures WithinLimits(available, caps, Select(available, caps, items), kind)
  {
    if items != [] {
      SelectWithinLimits(available, caps, items[..|items| - 1], kind);
      ConsiderWithinLimits(available, caps, Select(available, caps, items[..|items| - 1]), items[|items| - 1], kind);
    }
  }

  /** The total stays within the budget, and each capped kind within its cap unless nothing of it was taken. */
  lemma SelectionRespectsLimits(available: nat, caps: Caps, items: seq<Item>, kind: string)
    ensures var s := Select(available, caps, items);
            && Tokens(s.included) <= available
            && (kind in caps ==> TokensOfKind(s.included, kind) <= caps[kind] || NoneOfKind(s.included, kind))
  {
    SelectionIsPartition(available, caps, items, kind);
    SelectWithinLimits(available, caps, items, kind);
  }

  predicate NonNegative(items: seq<Item>) {
    forall i :: 0 <= i < |items| ==> items[i].tokenCount >= 0
  }

  predicate Maximal(available: nat, caps: Caps, s: Selection) {
    forall e :: e in s.excluded ==> NoRoom(available, caps, s, e)
  }

  lemma ConsiderMaximal(available: nat, caps: Caps, s: Selection, item: Item)
    requires Maximal(available, caps, s) && item.tokenCount >= 0
    ensures Maximal(available, caps, Consider(available, caps, s, item))
  {
    var s' := Consider(available, caps, s, item);
    forall e | e in s'.excluded ensures NoRoom(available, caps, s', e) {
      if e in s.excluded {
        assert Used(s', e.kind) >= Used(s, e.kind) && s'.used >= s.used;
      }
    }
  }

  /** No excluded item could still be added: it would break the overall budget or the cap of its kind. */
  lemma {:induction false} SelectionIsMaximal(available: nat, caps: Caps, items: seq<Item>)
    requires NonNegative(items)
    ensures Maximal(available, caps, Select(available, caps, items))
  {
    if items != [] {
      SelectionIsMaximal(available, caps, items[..|items| - 1]);
      ConsiderMaximal(available, caps, Select(available, caps, items[..|items| - 1]), items[|items| - 1]);
    }
  }

  // The builder

  datatype BuilderResult = BuilderResult(totalTokens: int, included: seq<Item>, excluded: seq<Item>,
      tokensAvailable: nat, tokensRemaining: int)

  function MeetsPriority(b: Budget): Item -> bool {
    (item: Item) => item.priority >= b.minPriority
  }

  function Eligible(b: Budget, items: seq<Item>): seq<Item> {
    Filtered(items, MeetsPriority(b))
  }

  /** `r` is what the builder may return for `items`: a greedy pass over some sort of the eligible ones. */
  ghost predicate BuiltFrom(b: Budget, caps: Caps, items: seq<Item>, r: BuilderResult) {
    exists sorted :: IsSortOf(GoesFirst, Eligible(b, items), sorted) && FromSorted(b, caps, sorted, r)
  }

  ghost predicate FromSorted(b: Budget, caps: Caps, sorted: seq<Item>, r: BuilderResult) {
    var available := AvailableForContext(b);
    var s := Select(available, caps, sorted);
    r == BuilderResult(s.used, s.included, s.excluded, available, available - s.used)
  }

  lemma PriorityOrders()
    ensures StrictWeakOrder(GoesFirst)
  {
  }

  method FilterEligible(b: Budget, items: seq<Item>) returns (eligible: seq<Item>)
    ensures eligible == Eligible(b, items)
  {
    eligible := [];
    for i := 0 to |items|
      invariant eligible == Filtered(items[..i], MeetsPriority(b))
    {
      assert items[..i + 1][..i] == items[..i];
      if items[i].priority >= b.minPriority {
        eligible := eligible + [items[i]];
      }
    }
    assert items[..|items|] == items;
  }

  method SelectWithinBudget(available: nat, caps: Caps, items: seq<Item>)
      returns (included: seq<Item>, excluded: seq<Item>, used: int)
    ensures var s := Select(available, caps, items); included == s.included && excluded == s.excluded && used == s.used
  {
    included, excluded, used := [], [], 0;
    var perKind: map<string, int> := map[];
    for i := 0 to |items|
      invariant Selection(included, excluded, used, perKind) == Select(available, caps, items[..i])
    {
      var item := items[i];
      assert items[..i + 1][..i] == items[..i];
      if used + item.tokenCount > available {
        excluded := excluded + [item];
        continue;
      }
      var usedOfKind := if item.kind in perKind then perKind[item.kind] else 0;
      if item.kind in caps {
        if usedOfKind + item.tokenCount > caps[item.kind] {
          excluded := excluded + [item];
          continue;
        }
      }
      included := included + [item];
      used := used + item.tokenCount;
      perKind := perKind[item.kind := usedOfKind + item.tokenCount];
    }
    assert items[..|items|] == items;
  }

  method BuildWithBudget(b: Budget, caps: Caps, items: seq<Item>) returns (r: BuilderResult)
    ensures BuiltFrom(b, caps, items, r)
  {
    var available := AvailableForContext(b);
    var eligible := FilterEligible(b, items);
    PriorityOrders();
    var sorted := Sort(eligible, GoesFirst);
    var included, excluded, used := SelectWithinBudget(available, caps, sorted);
    r := BuilderResult(used, included, excluded, available, available - used);
    assert FromSorted(b, caps, sorted, r);
  }

  /**
   * What any build guarantees: a partition of the eligible items within every limit, to which nothing excluded could
   * be added.
   */
  lemma BuildIsGood(b: Budget, caps: Caps, items: seq<Item>, r: BuilderResult)
    requires BuiltFrom(b, caps, items, r)
    ensures multiset(r.included) + multiset(r.excluded) == multiset(Eligible(b, items))
    ensures forall x :: x in r.included || x in r.excluded <==> x in items && x.priority >= b.minPriority
    ensures r.totalTokens == Tokens(r.included) <= AvailableForContext(b)
    ensures r.tokensRemaining == AvailableForContext(b) - r.totalTokens
    ensures forall kind :: kind in caps ==> TokensOfKind(r.included, kind) <= caps[kind] || NoneOfKind(r.included, kind)
    ensures NonNegative(items) ==>
              forall e :: e in r.excluded ==>
                || Tokens(r.included) + e.tokenCount > AvailableForContext(b)
                || (e.kind in caps && TokensOfKind(r.included, e.kind) + e.tokenCount > caps[e.kind])
  {
    var sorted :| IsSortOf(GoesFirst, Eligible(b, items), sorted) && FromSorted(b, caps, sorted, r);
    var available := AvailableForContext(b);
    var s := Select(available, caps, sorted);
    SelectionIsPartition(available, caps, sorted, "");
    EligibleMembers(b, items, r.included, r.excluded);
    forall kind | kind in caps
      ensures TokensOfKind(r.included, kind) <= caps[kind] || NoneOfKind(r.included, kind)
    {
      SelectionRespectsLimits(available, caps, sorted, kind);
    }
    SelectionRespectsLimits(available, caps, sorted, "");
    if NonNegative(items) {
      SortedNonNegative(b, items, sorted);
      SelectionIsMaximal(available, caps, sorted);
      forall e | e in r.excluded
        ensures Tokens(r.included) + e.tokenCount > available
            || (e.kind in caps && TokensOfKind(r.included, e.kind) + e.tokenCount > caps[e.kind])
      {
        assert NoRoom(available, caps, s, e);
        SelectionIsPartition(available, caps, sorted, e.kind);
      }
    }
  }

  lemma EligibleMembers(b: Budget, items: seq<Item>, included: seq<Item>, excluded: seq<Item>)
    requires multiset(included) + multiset(excluded) == multiset(Eligible(b, items))
    ensures forall x :: x in included || x in excluded <==> x in items && x.priority >= b.minPriority
  {
    FilteredMembers(items, MeetsPriority(b));
    forall x ensures x in included || x in excluded <==> x in Eligible(b, items) {
      assert x in multiset(included) + multiset(excluded) <==> x in multiset(Eligible(b, items));
    }
  }

  // What keeps an item out

  /** Of higher priority, or of the same and no larger. */
  predicate NoWorse(x: Item, e: Item) {
    x.priority > e.priority || (x.priority == e.priority && x.tokenCount <= e.tokenCount)
  }

  function NoWorseThan(e: Item): Item -> bool {
    (x: Item) => NoWorse(x, e)
  }

  /** The included items that are no worse leave `e` no room. */
  predicate KeptOut(available: nat, caps: Caps, included: seq<Item>, e: Item) {
    var better := Filtered(included, NoWorseThan(e));
    || Tokens(better) + e.tokenCount > available
    || (e.kind in caps && TokensOfKind(better, e.kind) + e.tokenCount > caps[e.kind])
  }

  lemma OneMoreKeepsOut(available: nat, caps: Caps, included: seq<Item>, item: Item, e: Item)
    requires KeptOut(available, caps, included, e) && item.tokenCount >= 0
    ensures KeptOut(available, caps, included + [item], e)
  {
    var better := Filtered(included, NoWorseThan(e));
    assert (included + [item])[..|included|] == included;
    if NoWorse(item, e) {
      assert Filtered(included + [item], NoWorseThan(e)) == better + [item];
      TokensAppend(better, item, e.kind);
    } else {
      assert Filtered(included + [item], NoWorseThan(e)) == better + [];
      assert better + [] == better;
    }
  }

  /** An item that is turned away was turned away by items no worse than itself. */
  lemma TurnedAway(available: nat, caps: Caps, items: seq<Item>)
    requires items != [] && SortedBy(GoesFirst, items)
    requires var front, e := items[..|items| - 1], items[|items| - 1];
             NoRoom(available, caps, Select(available, caps, front), e)
    ensures KeptOut(available, caps, Select(available, caps, items[..|items| - 1]).included, items[|items| - 1])
  {
    var n := |items| - 1;
    var front, e := items[..n], items[n];
    var s := Select(available, caps, front);
    SelectionIsPartition(available, caps, front, e.kind);
    forall x | x in s.included ensures NoWorse(x, e) {
      assert x in multiset(s.included) + multiset(s.excluded);
      assert x in multiset(front);
      var i :| 0 <= i < n && front[i] == x;
      assert !GoesFirst(items[n], items[i]);
    }
    FilteredAll(s.included, NoWorseThan(e));
  }

  /** So a worse item never takes the place of a better one. */
  lemma {:induction false} OnlyBetterItemsKeepOut(available: nat, caps: Caps, items: seq<Item>, e: Item)
    requires SortedBy(GoesFirst, items) && NonNegative(items) && e in Select(available, caps, items).excluded
    ensures KeptOut(available, caps, Select(available, caps, items).included, e)
  {
    var n := |items| - 1;
    var front, item := items[..n], items[n];
    var s := Select(available, caps, front);
    if e in s.excluded {
      OnlyBetterItemsKeepOut(available, caps, front, e);
      if !NoRoom(available, caps, s, item) {
        OneMoreKeepsOut(available, caps, s.included, item, e);
      }
    } else {
      TurnedAway(available, caps, items);
    }
  }

  /** The same of every build. */
  lemma BuildKeepsBetterItems(b: Budget, caps: Caps, items: seq<Item>, r: BuilderResult, e: Item)
    requires BuiltFrom(b, caps, items, r) && NonNegative(items) && e in r.excluded
    ensures KeptOut(AvailableForContext(b), caps, r.included, e)
  {
    var sorted :| IsSortOf(GoesFirst, Eligible(b, items), sorted) && FromSorted(b, caps, sorted, r);
    SortedNonNegative(b, items, sorted);
    OnlyBetterItemsKeepOut(AvailableForContext(b), caps, sorted, e);
  }

  lemma SortedNonNegative(b: Budget, items: seq<Item>, sorted: seq<Item>)
    requires NonNegative(items) && multiset(sorted) == multiset(Eligible(b, items))
    ensures NonNegative(sorted)
  {
    forall i | 0 <= i < |sorted| ensures sorted[i].tokenCount >= 0 {
      assert sorted[i] in multiset(sorted);
      assert sorted[i] in Eligible(b, items);
      FilteredMembers(items, MeetsPriority(b));
      var k :| 0 <= k < |items| && items[k] == sorted[i];
    }
  }

  // Sequential and concurrent gathering

  datatype Gathered = Gathered(item: Option<Item>, err: Option<string>)

  /** The sequential builder keeps an item even when its gatherer also reported an error. */
  method CollectSequential(results: seq<Gathered>) returns (items: seq<Item>)
    ensures items == ItemsOf(Filtered(results, Kept))
    ensures forall x :: x in items <==> exists g :: g in results && g.item == Some(x)
  {
    items := [];
    for i := 0 to |results|
      invariant items == ItemsOf(Filtered(results[..i], Kept))
      invariant forall x :: x in items <==> exists j :: 0 <= j < i && results[j].item == Some(x)
    {
      assert results[..i + 1][..i] == results[..i];
      if results[i].item.Some? {
        ItemsAppend(Filtered(results[..i], Kept), results[i]);
        items := items + [results[i].item.value];
      }
    }
    assert results[..|results|] == results;
  }

  /** The concurrent builder takes results as they arrive and drops those with an error. */
  method CollectConcurrent(arrivals: seq<Gathered>) returns (items: seq<Item>)
    ensures items == ItemsOf(Filtered(arrivals, KeptWithoutError))
    ensures forall x :: x in items <==> exists g :: g in arrivals && g.item == Some(x) && g.err.None?
  {
    items := [];
    for i := 0 to |arrivals|
      invariant items == ItemsOf(Filtered(arrivals[..i], KeptWithoutError))
      invariant forall x :: x in items <==>
                  exists j :: 0 <= j < i && arrivals[j].item == Some(x) && arrivals[j].err.None?
    {
      assert arrivals[..i + 1][..i] == arrivals[..i];
      if arrivals[i].err.Some? {
        continue;
      }
      if arrivals[i].item.Some? {
        ItemsAppend(Filtered(arrivals[..i], KeptWithoutError), arrivals[i]);
        items := items + [arrivals[i].item.value];
      }
    }
    assert arrivals[..|arrivals|] == arrivals;
  }

  predicate Kept(g: Gathered) { g.item.Some? }
  predicate KeptWithoutError(g: Gathered) { g.item.Some? && g.err.None? }

  function ItemOf(g: Gathered): Item {
    match g.item
    case Some(i) => i
    case None => Item("", "", "", [], 0, 0, None)
  }

  function ItemsOf(s: seq<Gathered>): seq<Item> {
    Mapped(s, ItemOf)
  }

  lemma ItemsAppend(s: seq<Gathered>, g: Gathered)
    ensures ItemsOf(s + [g]) == ItemsOf(s) + [ItemOf(g)]
  {
    MappedAppend(s, g, ItemOf);
  }
}
