/** When gather order and tie-breaking change what the context builder selects, and when they do not. */
module ContextTies {
  import opened Common
  import opened Sorting
  import opened Multisets
  import opened ContextSelection

  // Independence of gather order and ties

  datatype Key = Key(priority: int, tokens: int)

  function KeyOf(item: Item): Key {
    Key(item.priority, item.tokenCount)
  }

  predicate KeyFirst(a: Key, b: Key) {
    if a.priority != b.priority then a.priority > b.priority else a.tokens < b.tokens
  }

  function Keys(items: seq<Item>): seq<Key> {
    Mapped(items, KeyOf)
  }

  lemma SortedKeys(items: seq<Item>)
    requires SortedBy(GoesFirst, items)
    ensures SortedBy(KeyFirst, Keys(items))
  {
    forall i, j | 0 <= i < j < |items| ensures !KeyFirst(Keys(items)[j], Keys(items)[i]) {
      assert !GoesFirst(items[j], items[i]);
      assert Keys(items)[i] == KeyOf(items[i]) && Keys(items)[j] == KeyOf(items[j]);
    }
  }

  lemma LastIsLeast(a: seq<Key>, k: Key)
    requires SortedBy(KeyFirst, a) && a != [] && k in a
    ensures !KeyFirst(a[|a| - 1], k)
  {
    var i :| 0 <= i < |a| && a[i] == k;
    if i < |a| - 1 {
      assert !KeyFirst(a[|a| - 1], a[i]);
    }
  }

  /** Two sorted arrangements of the same keys are equal: keys leave no ties. */
  lemma {:induction false} SortedKeysUnique(a: seq<Key>, b: seq<Key>)
    requires SortedBy(KeyFirst, a) && SortedBy(KeyFirst, b) && multiset(a) == multiset(b)
    ensures a == b
  {
    SameLength(a, b);
    if a != [] {
      var n := |a| - 1;
      SameLast(a, b);
      WithoutLast(a);
      WithoutLast(b);
      SortedKeysUnique(a[..n], b[..n]);
      assert a == a[..n] + [a[n]] && b == b[..n] + [b[n]];
    }
  }

  lemma SameLast(a: seq<Key>, b: seq<Key>)
    requires SortedBy(KeyFirst, a) && SortedBy(KeyFirst, b) && multiset(a) == multiset(b) && a != [] && b != []
    ensures a[|a| - 1] == b[|b| - 1]
  {
    assert a[|a| - 1] in multiset(b) && b[|b| - 1] in multiset(a);
    LastIsLeast(a, b[|b| - 1]);
    LastIsLeast(b, a[|a| - 1]);
  }

  /** The greedy pass on keys alone. */
  datatype KeySelection = KeySelection(included: seq<Key>, used: int)

  function SelectKeys(available: nat, keys: seq<Key>): KeySelection {
    if keys == [] then KeySelection([], 0)
    else
      var s := SelectKeys(available, keys[..|keys| - 1]);
      var k := keys[|keys| - 1];
      if s.used + k.tokens > available then s else KeySelection(s.included + [k], s.used + k.tokens)
  }

  lemma {:induction false} UncappedSelectionIsByKeys(available: nat, items: seq<Item>)
    ensures var s := Select(available, map[], items);
            var k := SelectKeys(available, Keys(items));
            Keys(s.included) == k.included && s.used == k.used
  {
    if items != [] {
      var front, item := items[..|items| - 1], items[|items| - 1];
      var s := Select(available, map[], front);
      UncappedSelectionIsByKeys(available, front);
      assert items == front + [item];
      MappedAppend(front, item, KeyOf);
      MappedAppend(s.included, item, KeyOf);
      assert Keys(items)[..|items| - 1] == Keys(front);
    }
  }

  /** With one item per kind, a cap simply admits or bars each item. */
  predicate Admitted(caps: Caps, item: Item) {
    item.kind in caps ==> item.tokenCount <= caps[item.kind]
  }

  function AdmittedBy(caps: Caps): Item -> bool {
    (item: Item) => Admitted(caps, item)
  }

  predicate OnePerKind(items: seq<Item>) {
    forall i, j :: 0 <= i < j < |items| ==> items[i].kind != items[j].kind
  }

  lemma {:induction false} UnseenKindUnused(available: nat, caps: Caps, items: seq<Item>, kind: string)
    requires forall i :: 0 <= i < |items| ==> items[i].kind != kind
    ensures Used(Select(available, caps, items), kind) == 0
  {
    if items != [] {
      UnseenKindUnused(available, caps, items[..|items| - 1], kind);
    }
  }

  lemma {:induction false} CappedSelectionFiltersFirst(available: nat, caps: Caps, items: seq<Item>)
    requires OnePerKind(items)
    ensures var s := Select(available, caps, items);
            var f := Select(available, map[], Filtered(items, AdmittedBy(caps)));
            s.included == f.included && s.used == f.used
  {
    if items != [] {
      var front, item := items[..|items| - 1], items[|items| - 1];
      CappedSelectionFiltersFirst(available, caps, front);
      UnseenKindUnused(available, caps, front, item.kind);
      var kept := Filtered(front, AdmittedBy(caps));
      if Admitted(caps, item) {
        SelectAppend(available, map[], kept, item);
        SameConsideration(available, caps, Select(available, caps, front), Select(available, map[], kept), item);
      } else {
        assert Filtered(items, AdmittedBy(caps)) == kept;
      }
    }
  }

  lemma SelectAppend(available: nat, caps: Caps, items: seq<Item>, item: Item)
    ensures Select(available, caps, items + [item]) == Consider(available, caps, Select(available, caps, items), item)
  {
    assert (items + [item])[..|items|] == items;
  }

  lemma SameConsideration(available: nat, caps: Caps, s: Selection, f: Selection, item: Item)
    requires s.included == f.included && s.used == f.used && Used(s, item.kind) == 0 && Admitted(caps, item)
    ensures var s', f' := Consider(available, caps, s, item), Consider(available, map[], f, item);
            s'.included == f'.included && s'.used == f'.used
  {
  }

  lemma {:induction false} FilteredStaysSorted(items: seq<Item>, p: Item -> bool)
    requires SortedBy(GoesFirst, items)
    ensures SortedBy(GoesFirst, Filtered(items, p))
  {
    if items != [] {
      var front := items[..|items| - 1];
      FilteredStaysSorted(front, p);
      FilteredMembers(front, p);
      forall x | x in Filtered(front, p) ensures !GoesFirst(items[|items| - 1], x) {
        assert x in front;
        var i :| 0 <= i < |front| && front[i] == x;
        assert items[i] == x;
      }
      var r := Filtered(items, p);
      forall i, j | 0 <= i < j < |r| ensures !GoesFirst(r[j], r[i]) {
        assert r[i] == Filtered(front, p)[i];
        assert r[i] in Filtered(front, p);
        assert j < |Filtered(front, p)| ==> r[j] == Filtered(front, p)[j];
      }
    }
  }

  // Ties that cannot matter

  /** What later choices depend on, and the keys chosen. */
  datatype Lean = Lean(keys: seq<Key>, used: int, perKind: map<string, int>)

  function LeanOf(s: Selection): Lean {
    Lean(Keys(s.included), s.used, s.perKind)
  }

  function Taken(l: Lean, kind: string): int {
    if kind in l.perKind then l.perKind[kind] else 0
  }

  function Offer(available: nat, caps: Caps, l: Lean, kind: string, key: Key): Lean {
    if l.used + key.tokens > available || (kind in caps && Taken(l, kind) + key.tokens > caps[kind]) then l
    else Lean(l.keys + [key], l.used + key.tokens, l.perKind[kind := Taken(l, kind) + key.tokens])
  }

  lemma ConsiderIsOffer(available: nat, caps: Caps, s: Selection, item: Item)
    ensures LeanOf(Consider(available, caps, s, item)) == Offer(available, caps, LeanOf(s), item.kind, KeyOf(item))
  {
    MappedAppend(s.included, item, KeyOf);
  }

  /** No use is negative, and none exceeds a cap. */
  ghost predicate Sane(available: nat, caps: Caps, l: Lean) {
    && l.used <= available
    && forall kind :: kind in caps ==> 0 <= Taken(l, kind) && (Taken(l, kind) <= caps[kind] || Taken(l, kind) == 0)
  }

  /** Equal so far and equal for good: the budget is spent, or every capped kind is used alike. */
  ghost predicate Alike(available: nat, caps: Caps, l: Lean, m: Lean) {
    && l.keys == m.keys && l.used == m.used
    && (l.used == available || forall kind :: kind in caps ==> Taken(l, kind) == Taken(m, kind))
  }

  lemma OfferSane(available: nat, caps: Caps, l: Lean, kind: string, key: Key)
    requires Sane(available, caps, l) && key.tokens >= 0
    ensures Sane(available, caps, Offer(available, caps, l, kind, key))
  {
  }

  lemma OfferAlike(available: nat, caps: Caps, l: Lean, m: Lean, kind: string, key: Key)
    requires Sane(available, caps, l) && Sane(available, caps, m) && Alike(available, caps, l, m) && key.tokens >= 0
    ensures Alike(available, caps, Offer(available, caps, l, kind, key), Offer(available, caps, m, kind, key))
  {
  }

  /** Not even an unused cap lets the item in. */
  predicate Barred(caps: Caps, item: Item) {
    item.kind in caps && item.tokenCount > caps[item.kind]
  }

  /** Which of two tied items comes first cannot matter. */
  predicate Harmless(caps: Caps, x: Item, y: Item) {
    || x.kind == y.kind
    || x.tokenCount <= 1
    || Barred(caps, x) || Barred(caps, y)
    || (x.kind !in caps && y.kind !in caps)
  }

  lemma SwapAlike(available: nat, caps: Caps, l: Lean, x: Item, y: Item)
    requires Sane(available, caps, l) && KeyOf(x) == KeyOf(y) && x.tokenCount >= 0 && Harmless(caps, x, y)
    ensures Alike(available, caps,
                  Offer(available, caps, Offer(available, caps, l, x.kind, KeyOf(x)), y.kind, KeyOf(y)),
                  Offer(available, caps, Offer(available, caps, l, y.kind, KeyOf(y)), x.kind, KeyOf(x)))
  {
  }

  function LeanSelect(available: nat, caps: Caps, items: seq<Item>): Lean {
    LeanOf(Select(available, caps, items))
  }

  lemma LeanAppend(available: nat, caps: Caps, items: seq<Item>, item: Item)
    ensures LeanSelect(available, caps, items + [item])
         == Offer(available, caps, LeanSelect(available, caps, items), item.kind, KeyOf(item))
  {
    SelectAppend(available, caps, items, item);
    ConsiderIsOffer(available, caps, Select(available, caps, items), item);
  }

  lemma {:induction false} SelectSane(available: nat, caps: Caps, items: seq<Item>)
    requires NonNegative(items)
    ensures Sane(available, caps, LeanSelect(available, caps, items))
  {
    if items != [] {
      var front, item := items[..|items| - 1], items[|items| - 1];
      assert items == front + [item];
      SelectSane(available, caps, front);
      LeanAppend(available, caps, front, item);
      OfferSane(available, caps, LeanSelect(available, caps, front), item.kind, KeyOf(item));
    }
  }

  /** One more item keeps two selections alike. */
  lemma StillAlike(available: nat, caps: Caps, a: seq<Item>, b: seq<Item>, item: Item)
    requires NonNegative(a) && NonNegative(b) && item.tokenCount >= 0
    requires Alike(available, caps, LeanSelect(available, caps, a), LeanSelect(available, caps, b))
    ensures Alike(available, caps, LeanSelect(available, caps, a + [item]), LeanSelect(available, caps, b + [item]))
  {
    SelectSane(available, caps, a);
    SelectSane(available, caps, b);
    LeanAppend(available, caps, a, item);
    LeanAppend(available, caps, b, item);
    OfferAlike(available, caps, LeanSelect(available, caps, a), LeanSelect(available, caps, b), item.kind, KeyOf(item));
  }

  lemma LastTwoSwap(available: nat, caps: Caps, items: seq<Item>, x: Item, y: Item)
    requires NonNegative(items) && KeyOf(x) == KeyOf(y) && x.tokenCount >= 0 && Harmless(caps, x, y)
    ensures Alike(available, caps, LeanSelect(available, caps, items + [x] + [y]),
        LeanSelect(available, caps, items + [y] + [x]))
  {
    SelectSane(available, caps, items);
    LeanAppend(available, caps, items, x);
    LeanAppend(available, caps, items + [x], y);
    LeanAppend(available, caps, items, y);
    LeanAppend(available, caps, items + [y], x);
    SwapAlike(available, caps, LeanSelect(available, caps, items), x, y);
  }

  function MovedToEnd(items: seq<Item>, k: nat): seq<Item>
    requires k < |items|
  {
    items[..k] + items[k + 1..] + [items[k]]
  }

  /** An item may be moved to the end past items it ties harmlessly with. */
  lemma {:induction false} BubbleToEnd(available: nat, caps: Caps, items: seq<Item>, k: nat)
    requires k < |items| && NonNegative(items)
    requires forall j :: k < j < |items| ==> KeyOf(items[j]) == KeyOf(items[k]) && Harmless(caps, items[k], items[j])
    ensures Alike(available, caps, LeanSelect(available, caps, items),
        LeanSelect(available, caps, MovedToEnd(items, k)))
    decreases |items|
  {
    var n := |items| - 1;
    if k == n {
      assert MovedToEnd(items, k) == items;
    } else {
      var front, x, z := items[..n], items[k], items[n];
      var rest := front[..k] + front[k + 1..];
      assert front[k] == x && items == front + [z];
      assert forall j :: k < j < n ==> front[j] == items[j];
      BubbleToEnd(available, caps, front, k);
      assert MovedToEnd(front, k) == rest + [x];
      assert MovedToEnd(items, k) == rest + [z] + [x];
      BubbleStep(available, caps, front, rest, x, z);
    }
  }

  lemma BubbleStep(available: nat, caps: Caps, front: seq<Item>, rest: seq<Item>, x: Item, z: Item)
    requires NonNegative(front) && NonNegative(rest) && x.tokenCount >= 0 && KeyOf(z) == KeyOf(x)
        && Harmless(caps, x, z)
    requires Alike(available, caps, LeanSelect(available, caps, front), LeanSelect(available, caps, rest + [x]))
    ensures Alike(available, caps, LeanSelect(available, caps, front + [z]),
        LeanSelect(available, caps, rest + [z] + [x]))
  {
    StillAlike(available, caps, front, rest + [x], z);
    LastTwoSwap(available, caps, rest, x, z);
  }

  /** Eligible items that tie do so harmlessly. */
  ghost predicate TiesHarmless(caps: Caps, items: seq<Item>) {
    forall x, y :: x in items && y in items && KeyOf(x) == KeyOf(y) ==> Harmless(caps, x, y)
  }

  /** From the place of `a`'s last item on, everything in `b` ties with it. */
  lemma TiedWithLast(a: seq<Item>, b: seq<Item>, k: nat, j: nat)
    requires SortedBy(GoesFirst, a) && SortedBy(GoesFirst, b) && multiset(a) == multiset(b)
    requires a != [] && k < j < |b| && b[k] == a[|a| - 1]
    ensures KeyOf(b[j]) == KeyOf(b[k])
  {
    assert b[j] in multiset(a);
    var i :| 0 <= i < |a| && a[i] == b[j];
    assert i < |a| - 1 ==> !GoesFirst(a[|a| - 1], a[i]);
    assert !GoesFirst(b[j], b[k]);
  }

  lemma WithoutStaysSorted(items: seq<Item>, k: nat)
    requires SortedBy(GoesFirst, items) && k < |items|
    ensures SortedBy(GoesFirst, items[..k] + items[k + 1..])
  {
    var r := items[..k] + items[k + 1..];
    forall i, j | 0 <= i < j < |r| ensures !GoesFirst(r[j], r[i]) {
      var i', j' := if i < k then i else i + 1, if j < k then j else j + 1;
      assert r[i] == items[i'] && r[j] == items[j'];
    }
  }

  lemma SameMembers(a: seq<Item>, b: seq<Item>, x: Item)
    requires multiset(a) == multiset(b) && x in b
    ensures x in a
  {
    assert x in multiset(b);
  }

  /** With harmless ties, all sorted arrangements of the same items make the same selection, whatever the caps. */
  lemma {:induction false} HarmlessArrangements(available: nat, caps: Caps, a: seq<Item>, b: seq<Item>)
    requires SortedBy(GoesFirst, a) && SortedBy(GoesFirst, b) && multiset(a) == multiset(b)
    requires NonNegative(a) && TiesHarmless(caps, a)
    ensures Alike(available, caps, LeanSelect(available, caps, a), LeanSelect(available, caps, b))
    decreases |a|
  {
    SameLength(a, b);
    if a != [] {
      var n := |a| - 1;
      var k := MatchLast(a, b);
      var rest := b[..k] + b[k + 1..];
      LastMovesToEnd(available, caps, a, b, k);
      FrontFacts(caps, a);
      WithoutStaysSorted(b, k);
      HarmlessArrangements(available, caps, a[..n], rest);
      LastAgrees(available, caps, a, b, k);
    }
  }

  lemma FrontFacts(caps: Caps, a: seq<Item>)
    requires a != [] && SortedBy(GoesFirst, a) && NonNegative(a) && TiesHarmless(caps, a)
    ensures var front := a[..|a| - 1]; SortedBy(GoesFirst, front) && NonNegative(front) && TiesHarmless(caps, front)
  {
  }

  lemma LastMovesToEnd(available: nat, caps: Caps, a: seq<Item>, b: seq<Item>, k: nat)
    requires SortedBy(GoesFirst, a) && SortedBy(GoesFirst, b) && multiset(a) == multiset(b)
    requires NonNegative(a) && TiesHarmless(caps, a)
    requires a != [] && k < |b| && b[k] == a[|a| - 1]
    ensures NonNegative(b)
    ensures Alike(available, caps, LeanSelect(available, caps, b), LeanSelect(available, caps, MovedToEnd(b, k)))
  {
    forall x | x in b ensures x in a { SameMembers(a, b, x); }
    MembersNonNegative(a, b);
    forall j | k < j < |b| ensures KeyOf(b[j]) == KeyOf(b[k]) && Harmless(caps, b[k], b[j]) {
      TiedWithLast(a, b, k, j);
      assert b[k] in b && b[j] in b;
    }
    BubbleToEnd(available, caps, b, k);
  }

  lemma LastAgrees(available: nat, caps: Caps, a: seq<Item>, b: seq<Item>, k: nat)
    requires a != [] && k < |b| && b[k] == a[|a| - 1] && NonNegative(a) && NonNegative(b)
    requires Alike(available, caps, LeanSelect(available, caps, a[..|a| - 1]),
        LeanSelect(available, caps, b[..k] + b[k + 1..]))
    requires Alike(available, caps, LeanSelect(available, caps, b), LeanSelect(available, caps, MovedToEnd(b, k)))
    ensures Alike(available, caps, LeanSelect(available, caps, a), LeanSelect(available, caps, b))
  {
    var n := |a| - 1;
    var rest := b[..k] + b[k + 1..];
    StillAlike(available, caps, a[..n], rest, a[n]);
    assert a == a[..n] + [a[n]] && MovedToEnd(b, k) == rest + [a[n]];
  }

  lemma MembersNonNegative(a: seq<Item>, b: seq<Item>)
    requires NonNegative(a) && forall x :: x in b ==> x in a
    ensures NonNegative(b)
  {
    forall i | 0 <= i < |b| ensures b[i].tokenCount >= 0 {
      assert b[i] in b;
      var k :| 0 <= k < |a| && a[k] == b[i];
    }
  }

  /**
   * Any two sorted arrangements of the same items select the same sequence of keys and the same total, if there are
   * no caps, or at most one item per kind, or no ties but harmless ones.
   */
  lemma ArrangementIrrelevant(available: nat, caps: Caps, a: seq<Item>, b: seq<Item>)
    requires SortedBy(GoesFirst, a) && SortedBy(GoesFirst, b) && multiset(a) == multiset(b)
    requires caps == map[] || (OnePerKind(a) && OnePerKind(b)) || (NonNegative(a) && TiesHarmless(caps, a))
    ensures var sa, sb := Select(available, caps, a), Select(available, caps, b);
            Keys(sa.included) == Keys(sb.included) && sa.used == sb.used
  {
    if NonNegative(a) && TiesHarmless(caps, a) {
      HarmlessArrangements(available, caps, a, b);
    } else {
      FilteredArrangements(available, caps, a, b);
    }
  }

  lemma FilteredArrangements(available: nat, caps: Caps, a: seq<Item>, b: seq<Item>)
    requires SortedBy(GoesFirst, a) && SortedBy(GoesFirst, b) && multiset(a) == multiset(b)
    requires caps == map[] || (OnePerKind(a) && OnePerKind(b))
    ensures var sa, sb := Select(available, caps, a), Select(available, caps, b);
            Keys(sa.included) == Keys(sb.included) && sa.used == sb.used
  {
    var p := AdmittedBy(caps);
    var fa, fb := a, b;
    if caps != map[] {
      fa, fb := Filtered(a, p), Filtered(b, p);
      CappedSelectionFiltersFirst(available, caps, a);
      CappedSelectionFiltersFirst(available, caps, b);
      FilteredStaysSorted(a, p);
      FilteredStaysSorted(b, p);
      FilteredReorder(a, b, p);
    }
    SortedKeys(fa);
    SortedKeys(fb);
    MappedReorder(fa, fb, KeyOf);
    SortedKeysUnique(Keys(fa), Keys(fb));
    UncappedSelectionIsByKeys(available, fa);
    UncappedSelectionIsByKeys(available, fb);
  }

  // Builds

  /** No caps, one item per kind, or only harmless ties among the eligible items. */
  ghost predicate Determined(b: Budget, caps: Caps, items: seq<Item>) {
    caps == map[] || OnePerKind(items) || (NonNegative(items) && TiesHarmless(caps, Eligible(b, items)))
  }

  /**
   * The same items in another order, sorted with other ties, give the same total and the same sequence of (priority,
   * tokens).
   */
  lemma BuildsAgree(b: Budget, caps: Caps, items: seq<Item>, items': seq<Item>, r: BuilderResult, r': BuilderResult)
    requires multiset(items) == multiset(items') && BuiltFrom(b, caps, items, r) && BuiltFrom(b, caps, items', r')
    requires Determined(b, caps, items)
    ensures r.totalTokens == r'.totalTokens && r.tokensRemaining == r'.tokensRemaining
        && Keys(r.included) == Keys(r'.included)
  {
    var p := MeetsPriority(b);
    var a :| IsSortOf(GoesFirst, Eligible(b, items), a) && FromSorted(b, caps, a, r);
    var a' :| IsSortOf(GoesFirst, Eligible(b, items'), a') && FromSorted(b, caps, a', r');
    FilteredReorder(items, items', p);
    SortStaysDetermined(b, caps, items, a);
    SortStaysDetermined(b, caps, items, a');
    ArrangementIrrelevant(AvailableForContext(b), caps, a, a');
  }

  lemma SortStaysDetermined(b: Budget, caps: Caps, items: seq<Item>, sorted: seq<Item>)
    requires Determined(b, caps, items) && multiset(sorted) == multiset(Eligible(b, items))
    ensures caps == map[] || OnePerKind(items) ==> caps == map[] || OnePerKind(sorted)
    ensures NonNegative(items) && TiesHarmless(caps, Eligible(b, items)) ==>
        NonNegative(sorted) && TiesHarmless(caps, sorted)
  {
    if OnePerKind(items) {
      OnePerKindFiltered(items, MeetsPriority(b));
      OnePerKindReorder(Eligible(b, items), sorted);
    }
    if NonNegative(items) {
      SortedNonNegative(b, items, sorted);
    }
    forall x | x in sorted ensures x in Eligible(b, items) { SameMembers(Eligible(b, items), sorted, x); }
  }

  lemma {:induction false} OnePerKindFiltered(items: seq<Item>, p: Item -> bool)
    requires OnePerKind(items)
    ensures OnePerKind(Filtered(items, p))
  {
    if items != [] {
      var front := items[..|items| - 1];
      OnePerKindFiltered(front, p);
      FilteredMembers(front, p);
      forall x | x in Filtered(front, p) ensures x.kind != items[|items| - 1].kind {
        assert x in front;
        var i :| 0 <= i < |front| && front[i] == x;
      }
    }
  }

  lemma OnePerKindReorder(a: seq<Item>, b: seq<Item>)
    requires OnePerKind(a) && multiset(a) == multiset(b)
    ensures OnePerKind(b)
  {
    forall i, j | 0 <= i < j < |b| ensures b[i].kind != b[j].kind {
      if b[i].kind == b[j].kind {
        assert b[i] in multiset(a) && b[j] in multiset(a);
        var k :| 0 <= k < |a| && a[k] == b[i];
        var m :| 0 <= m < |a| && a[m] == b[j];
        assert k == m;
        TwiceInMultiset(b, i, j);
        OnceInMultiset(a, k);
      }
    }
  }

  lemma TwiceInMultiset(s: seq<Item>, i: nat, j: nat)
    requires i < j < |s| && s[i] == s[j]
    ensures multiset(s)[s[i]] >= 2
  {
    assert s == s[..i] + [s[i]] + s[i + 1..j] + [s[j]] + s[j + 1..];
  }

  lemma OnceInMultiset(s: seq<Item>, k: nat)
    requires OnePerKind(s) && k < |s|
    ensures multiset(s)[s[k]] == 1
  {
    assert s == s[..k] + [s[k]] + s[k + 1..];
    var before, after := s[..k], s[k + 1..];
    forall i | 0 <= i < |before| ensures before[i] != s[k] {
      assert s[i].kind != s[k].kind;
    }
    forall i | 0 <= i < |after| ensures after[i] != s[k] {
      assert s[k].kind != s[k + 1 + i].kind;
    }
  }

  // Sequential and concurrent builds

  lemma {:induction false} SameFilter(s: seq<Gathered>)
    requires forall i :: 0 <= i < |s| ==> s[i].err.None?
    ensures Filtered(s, Kept) == Filtered(s, KeptWithoutError)
  {
    if s != [] {
      SameFilter(s[..|s| - 1]);
    }
  }

  /**
   * When every gatherer succeeds, concurrent and sequential building agree on the total and the sequence of keys,
   * whatever the arrival order.
   */
  lemma ConcurrentAgreesWithSequential(b: Budget, caps: Caps, results: seq<Gathered>, arrivals: seq<Gathered>,
      r: BuilderResult, r': BuilderResult)
    requires multiset(results) == multiset(arrivals)
    requires forall i :: 0 <= i < |results| ==> results[i].err.None?
    requires Determined(b, caps, ItemsOf(Filtered(results, Kept)))
    requires BuiltFrom(b, caps, ItemsOf(Filtered(results, Kept)), r)
    requires BuiltFrom(b, caps, ItemsOf(Filtered(arrivals, KeptWithoutError)), r')
    ensures r.totalTokens == r'.totalTokens && Keys(r.included) == Keys(r'.included)
  {
    SameFilter(results);
    FilteredReorder(results, arrivals, KeptWithoutError);
    MappedReorder(Filtered(results, Kept), Filtered(arrivals, KeptWithoutError), ItemOf);
    BuildsAgree(b, caps, ItemsOf(Filtered(results, Kept)), ItemsOf(Filtered(arrivals, KeptWithoutError)), r, r');
  }

  // Ties that do matter

  /** The same items with `x` before `y` and the other way round, in sorted order. */
  ghost predicate IsContext(before: seq<Item>, x: Item, y: Item, after: seq<Item>) {
    && NonNegative(before) && NonNegative(after)
    && SortedBy(GoesFirst, before + [x] + [y] + after) && SortedBy(GoesFirst, before + [y] + [x] + after)
  }

  /** The total does not depend on which of the two comes first. */
  ghost predicate SwapKeepsTotal(available: nat, caps: Caps, before: seq<Item>, x: Item, y: Item, after: seq<Item>) {
    Select(available, caps, before + [x] + [y] + after).used == Select(available, caps, before + [y] + [x] + after).used
  }

  lemma {:induction false} AlikeThroughout(available: nat, caps: Caps, a: seq<Item>, b: seq<Item>, after: seq<Item>)
    requires NonNegative(a) && NonNegative(b) && NonNegative(after)
    requires Alike(available, caps, LeanSelect(available, caps, a), LeanSelect(available, caps, b))
    ensures Alike(available, caps, LeanSelect(available, caps, a + after), LeanSelect(available, caps, b + after))
    decreases |after|
  {
    if after == [] {
      assert a + after == a && b + after == b;
    } else {
      var front, item := after[..|after| - 1], after[|after| - 1];
      AlikeThroughout(available, caps, a, b, front);
      OneMoreAfter(a, after);
      OneMoreAfter(b, after);
      StillAlike(available, caps, a + front, b + front, item);
    }
  }

  lemma OneMoreAfter(items: seq<Item>, after: seq<Item>)
    requires NonNegative(items) && NonNegative(after) && after != []
    ensures var front := after[..|after| - 1];
            items + after == (items + front) + [after[|after| - 1]] && NonNegative(items + front)
  {
  }

  lemma HarmlessSwap(available: nat, caps: Caps, before: seq<Item>, x: Item, y: Item, after: seq<Item>)
    requires IsContext(before, x, y, after) && KeyOf(x) == KeyOf(y) && x.tokenCount >= 0 && Harmless(caps, x, y)
    ensures SwapKeepsTotal(available, caps, before, x, y, after)
  {
    LastTwoSwap(available, caps, before, x, y);
    AlikeThroughout(available, caps, before + [x] + [y], before + [y] + [x], after);
  }

  /** A plain item of a kind. */
  function Plain(kind: string, tokens: int, priority: int): Item {
    Item("", kind, "", [], tokens, priority, None)
  }

  /** What fills the cap of `x`'s kind up to `x`, and what then needs one more token of it. */
  function Filler(caps: Caps, x: Item): Item
    requires x.kind in caps
  {
    Plain(x.kind, caps[x.kind] - x.tokenCount, x.priority + 1)
  }

  function Latecomer(x: Item): Item {
    Plain(x.kind, 1, x.priority - 1)
  }

  lemma CappedFirst(caps: Caps, x: Item, y: Item)
    requires KeyOf(x) == KeyOf(y) && !Harmless(caps, x, y) && x.kind in caps
    ensures var w, z := Filler(caps, x), Latecomer(x);
            Select(caps[x.kind] + 1, caps, [w] + [x] + [y] + [z]).used == caps[x.kind]
  {
    var c, w, z := caps[x.kind], Filler(caps, x), Latecomer(x);
    var none: seq<Item> := [];
    assert [w] == none + [w];
    SelectAppend(c + 1, caps, none, w);
    SelectAppend(c + 1, caps, [w], x);
    SelectAppend(c + 1, caps, [w] + [x], y);
    SelectAppend(c + 1, caps, [w] + [x] + [y], z);
  }

  lemma CappedSecond(caps: Caps, x: Item, y: Item)
    requires KeyOf(x) == KeyOf(y) && !Harmless(caps, x, y) && x.kind in caps
    ensures var w, z := Filler(caps, x), Latecomer(x);
            Select(caps[x.kind] + 1, caps, [w] + [y] + [x] + [z]).used == caps[x.kind] + 1
  {
    var c, w, z := caps[x.kind], Filler(caps, x), Latecomer(x);
    var none: seq<Item> := [];
    assert [w] == none + [w];
    SelectAppend(c + 1, caps, none, w);
    SelectAppend(c + 1, caps, [w], y);
    SelectAppend(c + 1, caps, [w] + [y], x);
    SelectAppend(c + 1, caps, [w] + [y] + [x], z);
  }

  lemma ContextOfTie(caps: Caps, x: Item, y: Item)
    requires KeyOf(x) == KeyOf(y) && !Harmless(caps, x, y) && x.kind in caps
    ensures IsContext([Filler(caps, x)], x, y, [Latecomer(x)]) && IsContext([Filler(caps, x)], y, x, [Latecomer(x)])
  {
  }

  /** A tie that is not harmless changes the total: with the cap filled up to it, and one token left for a latecomer. */
  lemma HarmfulTieMatters(caps: Caps, x: Item, y: Item) returns (available: nat, before: seq<Item>, after: seq<Item>)
    requires KeyOf(x) == KeyOf(y) && !Harmless(caps, x, y)
    ensures IsContext(before, x, y, after) && !SwapKeepsTotal(available, caps, before, x, y, after)
    ensures forall i :: 0 <= i < |before| ==> before[i].priority >= x.priority - 1
    ensures forall i :: 0 <= i < |after| ==> after[i].priority >= x.priority - 1
  {
    if x.kind in caps {
      available, before, after := caps[x.kind] + 1, [Filler(caps, x)], [Latecomer(x)];
      CappedFirst(caps, x, y);
      CappedSecond(caps, x, y);
      ContextOfTie(caps, x, y);
    } else {
      available, before, after := caps[y.kind] + 1, [Filler(caps, y)], [Latecomer(y)];
      CappedFirst(caps, y, x);
      CappedSecond(caps, y, x);
      ContextOfTie(caps, y, x);
    }
  }

  ghost predicate OrderNeverMatters(caps: Caps, x: Item, y: Item) {
    forall available: nat, before, after :: IsContext(before, x, y, after) ==>
        SwapKeepsTotal(available, caps, before, x, y, after)
  }

  /**
   * For two tied items: their order never matters, in any surroundings and any budget, exactly when the tie is
   * harmless.
   */
  lemma OrderNeverMattersIff(caps: Caps, x: Item, y: Item)
    requires KeyOf(x) == KeyOf(y) && x.tokenCount >= 0
    ensures OrderNeverMatters(caps, x, y) <==> Harmless(caps, x, y)
  {
    if Harmless(caps, x, y) {
      forall available: nat, before, after | IsContext(before, x, y, after)
        ensures SwapKeepsTotal(available, caps, before, x, y, after)
      {
        HarmlessSwap(available, caps, before, x, y, after);
      }
    } else {
      var available, before, after := HarmfulTieMatters(caps, x, y);
    }
  }

  predicate CapsAtMostOne(caps: Caps) {
    forall kind :: kind in caps ==> caps[kind] <= 1
  }

  /**
   * Whatever is gathered, and however it is sorted, a build with these caps has one possible total and sequence of
   * keys.
   */
  ghost predicate BuildsDetermined(caps: Caps) {
    forall b, items, r, r' :: NonNegative(items) && BuiltFrom(b, caps, items, r) && BuiltFrom(b, caps, items, r') ==>
      r.totalTokens == r'.totalTokens && Keys(r.included) == Keys(r'.included)
  }

  lemma {:induction false} LongerThanAll(kinds: set<string>) returns (n: nat)
    ensures forall kind :: kind in kinds ==> |kind| <= n
  {
    if kinds == {} {
      n := 0;
    } else {
      var kind :| kind in kinds;
      var m := LongerThanAll(kinds - {kind});
      n := if |kind| > m then |kind| else m;
      forall k | k in kinds ensures |k| <= n { assert k == kind || k in kinds - {kind}; }
    }
  }

  lemma UncappedKind(caps: Caps) returns (kind: string)
    ensures kind !in caps
  {
    var n := LongerThanAll(caps.Keys);
    kind := seq(n + 1, _ => 'x');
  }

  /** With a cap of two or more, ties can change the total: some build has two outcomes. */
  lemma TiesMatterWithCaps(caps: Caps, kind: string)
      returns (b: Budget, items: seq<Item>, r: BuilderResult, r': BuilderResult)
    requires kind in caps && caps[kind] >= 2
    ensures NonNegative(items) && BuiltFrom(b, caps, items, r) && BuiltFrom(b, caps, items, r')
    ensures r.totalTokens != r'.totalTokens
  {
    var other := UncappedKind(caps);
    var x, y := Plain(kind, caps[kind], 0), Plain(other, caps[kind], 0);
    var available, before, after := HarmfulTieMatters(caps, x, y);
    b := Budget(available, 0, 0, -1);
    items := before + [x] + [y] + after;
    var swapped := before + [y] + [x] + after;
    assert multiset(swapped) == multiset(items);
    assert NonNegative(items) && forall i :: 0 <= i < |items| ==> items[i].priority >= -1;
    r := BuildOf(b, caps, items, items);
    r' := BuildOf(b, caps, items, swapped);
  }

  lemma BuildOf(b: Budget, caps: Caps, items: seq<Item>, sorted: seq<Item>) returns (r: BuilderResult)
    requires forall i :: 0 <= i < |items| ==> items[i].priority >= b.minPriority
    requires IsSortOf(GoesFirst, items, sorted)
    ensures BuiltFrom(b, caps, items, r) && r.totalTokens == Select(AvailableForContext(b), caps, sorted).used
  {
    FilteredAll(items, MeetsPriority(b));
    var s := Select(AvailableForContext(b), caps, sorted);
    r := BuilderResult(s.used, s.included, s.excluded, AvailableForContext(b), AvailableForContext(b) - s.used);
    assert FromSorted(b, caps, sorted, r);
  }

  /** For non-negative items the tie-break never matters exactly when every cap is at most one. */
  lemma BuildsDeterminedIff(caps: Caps)
    ensures BuildsDetermined(caps) <==> CapsAtMostOne(caps)
  {
    if CapsAtMostOne(caps) {
      forall b, items, r, r' | NonNegative(items) && BuiltFrom(b, caps, items, r) && BuiltFrom(b, caps, items, r')
        ensures r.totalTokens == r'.totalTokens && Keys(r.included) == Keys(r'.included)
      {
        assert TiesHarmless(caps, Eligible(b, items));
        BuildsAgree(b, caps, items, items, r, r');
      }
    } else {
      var kind :| kind in caps && caps[kind] >= 2;
      var b, items, r, r' := TiesMatterWithCaps(caps, kind);
    }
  }
}
