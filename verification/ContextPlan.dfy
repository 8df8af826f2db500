/** Two-stage context assembly: truncation, the final budget pass, and why it cuts nothing of the first stage. */
module ContextPlan {
  import opened Common
  import opened Sorting
  import opened Multisets
  import opened ContextSelection

  /** About four bytes per token, rounded up. */
  function EstimateTokens(content: Bytes): nat {
    (|content| + 3) / 4
  }

  /** Four bytes to a token, any rest counting for one more. */
  lemma EstimateMeaning(content: Bytes)
    ensures 4 * EstimateTokens(content) - 4 < |content| <= 4 * EstimateTokens(content)
  {
  }

  /** A line break and "... [truncated]". */
  const SUFFIX: Bytes := [10, 46, 46, 46, 32, 91, 116, 114, 117, 110, 99, 97, 116, 101, 100, 93]

  /** None stands for the slice panic of a negative bound. */
  function TruncateToTokenLimit(content: Bytes, maxTokens: int): Option<Bytes> {
    if maxTokens <= 0 then Some(content)
    else if EstimateTokens(content) <= maxTokens then Some(content)
    else
      var maxChars := maxTokens * 4;
      if maxChars >= |content| then Some(content)
      else if maxChars - 20 < 0 then None
      else Some(content[..maxChars - 20] + SUFFIX)
  }

  /** Truncation panics exactly on a limit of one to four tokens that the content exceeds. */
  lemma TruncationPanicsIff(content: Bytes, maxTokens: int)
    ensures TruncateToTokenLimit(content, maxTokens).None? <==> 0 < maxTokens < 5 && EstimateTokens(content) > maxTokens
  {
  }

  /**
   * From five tokens on, the result is estimated within the limit, keeps fitting content, and truncating it again
   * changes nothing.
   */
  lemma TruncationFits(content: Bytes, maxTokens: int)
    requires maxTokens >= 5
    ensures var r := TruncateToTokenLimit(content, maxTokens);
            && r.Some? && EstimateTokens(r.value) <= maxTokens
            && (r.value == content <==> EstimateTokens(content) <= maxTokens)
            && (r.value != content ==>
                |r.value| == 4 * maxTokens - 4 && r.value[..4 * maxTokens - 20] == content[..4 * maxTokens - 20])
            && TruncateToTokenLimit(r.value, maxTokens) == r
  {
  }

  // The final pass

  predicate Matches(items: seq<Item>) {
    forall i :: 0 <= i < |items| ==> items[i].tokenCount == EstimateTokens(items[i].content)
  }

  /** High sensitivity copies the item with a fresh estimate; the content is only scanned, not changed. */
  function Passed(item: Item, high: bool): Item {
    if high then item.(tokenCount := EstimateTokens(item.content)) else item
  }

  /** The item cut down to what is left of the budget. */
  function Cut(item: Item, remaining: int): Item
    requires remaining > 100
  {
    var content := TruncateToTokenLimit(item.content, remaining).value;
    item.(content := content, tokenCount := EstimateTokens(content))
  }

  /** What the pass makes of the items still ahead once `used` tokens are spent. */
  function Pass(items: seq<Item>, maxTokens: int, high: bool, used: int): seq<Item> {
    if items == [] then []
    else if used + items[0].tokenCount > maxTokens then
      if maxTokens - used > 100 then [Cut(items[0], maxTokens - used)] else []
    else
      var item := Passed(items[0], high);
      [item] + Pass(items[1..], maxTokens, high, used + item.tokenCount)
  }

  lemma PassStep(done: seq<Item>, item: Item, rest: seq<Item>)
    ensures done + ([item] + rest) == (done + [item]) + rest
  {
  }

  method ApplyBudgetAndRedact(items: seq<Item>, maxTokens: int, high: bool) returns (result: seq<Item>)
    ensures result == Pass(items, maxTokens, high, 0)
  {
    result := [];
    var used := 0;
    assert items[0..] == items;
    for i := 0 to |items|
      invariant result + Pass(items[i..], maxTokens, high, used) == Pass(items, maxTokens, high, 0)
    {
      var item := items[i];
      assert items[i..][0] == item && items[i..][1..] == items[i + 1..];
      if used + item.tokenCount > maxTokens {
        var remaining := maxTokens - used;
        if remaining > 100 {
          var truncated := TruncateToTokenLimit(item.content, remaining).value;
          result := result + [item.(content := truncated, tokenCount := EstimateTokens(truncated))];
        }
        return;
      }
      if high {
        var copy := item.(tokenCount := EstimateTokens(item.content));
        PassStep(result, copy, Pass(items[i + 1..], maxTokens, high, used + copy.tokenCount));
        result := result + [copy];
        used := used + copy.tokenCount;
      } else {
        PassStep(result, item, Pass(items[i + 1..], maxTokens, high, used + item.tokenCount));
        result := result + [item];
        used := used + item.tokenCount;
      }
    }
  }

  lemma {:induction false} TokensPrepend(item: Item, items: seq<Item>)
    ensures Tokens([item] + items) == item.tokenCount + Tokens(items)
  {
    var all := [item] + items;
    if items == [] {
      assert all[..0] == [];
    } else {
      TokensPrepend(item, items[..|items| - 1]);
      assert all[..|all| - 1] == [item] + items[..|items| - 1];
    }
  }

  /**
   * The pass never exceeds the budget; under high sensitivity, provided the counts it checks are the estimates it
   * adds up.
   */
  lemma {:induction false} PassStaysWithin(items: seq<Item>, maxTokens: int, high: bool, used: int)
    requires used <= maxTokens && (high ==> Matches(items))
    ensures used + Tokens(Pass(items, maxTokens, high, used)) <= maxTokens
    decreases |items|
  {
    if items != [] {
      if used + items[0].tokenCount > maxTokens {
        if maxTokens - used > 100 {
          TruncationFits(items[0].content, maxTokens - used);
          TokensPrepend(Cut(items[0], maxTokens - used), []);
          assert [Cut(items[0], maxTokens - used)] + [] == [Cut(items[0], maxTokens - used)];
        }
      } else {
        var item := Passed(items[0], high);
        assert item.tokenCount == items[0].tokenCount;
        PassStaysWithin(items[1..], maxTokens, high, used + item.tokenCount);
        TokensPrepend(item, Pass(items[1..], maxTokens, high, used + item.tokenCount));
      }
    }
  }

  /** An item the pass reaches is let in by its count although its estimate exceeds what is left. */
  predicate Overshoots(items: seq<Item>, maxTokens: int, used: int) {
    && items != []
    && used + items[0].tokenCount <= maxTokens
    && var used' := used + EstimateTokens(items[0].content);
       used' > maxTokens || Overshoots(items[1..], maxTokens, used')
  }

  lemma OvershootEnds(items: seq<Item>, maxTokens: int, used: int)
    requires NonNegative(items) && used > maxTokens
    ensures Pass(items, maxTokens, true, used) == []
  {
  }

  /** A high-sensitivity pass exceeds the budget exactly when such an item comes up. */
  lemma {:induction false} PassExceedsIff(items: seq<Item>, maxTokens: int, used: int)
    requires NonNegative(items) && used <= maxTokens
    ensures used + Tokens(Pass(items, maxTokens, true, used)) > maxTokens <==> Overshoots(items, maxTokens, used)
    decreases |items|
  {
    if items != [] {
      if used + items[0].tokenCount > maxTokens {
        CutStaysWithin(items, maxTokens, used);
      } else {
        var item := Passed(items[0], true);
        var used' := used + item.tokenCount;
        TokensPrepend(item, Pass(items[1..], maxTokens, true, used'));
        if used' > maxTokens {
          OvershootEnds(items[1..], maxTokens, used');
        } else {
          PassExceedsIff(items[1..], maxTokens, used');
        }
      }
    }
  }

  lemma CutStaysWithin(items: seq<Item>, maxTokens: int, used: int)
    requires items != [] && used <= maxTokens && used + items[0].tokenCount > maxTokens
    ensures used + Tokens(Pass(items, maxTokens, true, used)) <= maxTokens
  {
    if maxTokens - used > 100 {
      var cut := Cut(items[0], maxTokens - used);
      TruncationFits(items[0].content, maxTokens - used);
      TokensPrepend(cut, []);
      assert [cut] + [] == [cut];
    }
  }

  /** Without that, a high-sensitivity pass can exceed any budget: a count of zero lets any content through. */
  lemma MismatchedCountsCanExceed(maxTokens: nat, item: Item)
    requires item.tokenCount == 0 && EstimateTokens(item.content) > maxTokens
    ensures Tokens(Pass([item], maxTokens, true, 0)) > maxTokens
  {
    var copy := Passed(item, true);
    assert [item][1..] == [];
    assert Pass([item], maxTokens, true, 0) == [copy] + [];
    TokensPrepend(copy, []);
  }

  /**
   * The pass takes items in order up to the first whose count does not fit; that one is cut down to what is left, and
   * kept, exactly when more than a hundred tokens are left; nothing after it is taken.
   */
  lemma {:induction false} PassShape(items: seq<Item>, maxTokens: int, high: bool, used: int) returns (k: nat)
    ensures HasShape(items, maxTokens, high, used, Pass(items, maxTokens, high, used), k)
    decreases |items|
  {
    if items == [] || used + items[0].tokenCount > maxTokens {
      k := 0;
      assert Pass(items, maxTokens, high, used)[..0] == [];
    } else {
      var item := Passed(items[0], high);
      var j := PassShape(items[1..], maxTokens, high, used + item.tokenCount);
      k := j + 1;
      ShapeStep(items, maxTokens, high, used, j);
    }
  }

  /** The first `k` items are taken, and the next, if any, is cut or dropped. */
  predicate HasShape(items: seq<Item>, maxTokens: int, high: bool, used: int, out: seq<Item>, k: nat) {
    && k <= |items| && k <= |out|
    && (forall i :: 0 <= i < k ==> out[i] == Passed(items[i], high))
    && var left := maxTokens - used - Tokens(out[..k]);
       && (k < |items| ==> items[k].tokenCount > left)
       && (|out| > k <==> k < |items| && left > 100)
       && (|out| > k ==> out[k..] == [Cut(items[k], left)])
  }

  lemma ShapeStep(items: seq<Item>, maxTokens: int, high: bool, used: int, j: nat)
    requires items != [] && used + items[0].tokenCount <= maxTokens
    requires var used' := used + Passed(items[0], high).tokenCount;
             HasShape(items[1..], maxTokens, high, used', Pass(items[1..], maxTokens, high, used'), j)
    ensures HasShape(items, maxTokens, high, used, Pass(items, maxTokens, high, used), j + 1)
  {
    var item := Passed(items[0], high);
    var rest := Pass(items[1..], maxTokens, high, used + item.tokenCount);
    ShapePrepend(items, maxTokens, high, used, rest, item, j);
  }

  lemma ShapePrepend(items: seq<Item>, maxTokens: int, high: bool, used: int, rest: seq<Item>, item: Item, j: nat)
    requires items != [] && item == Passed(items[0], high)
    requires HasShape(items[1..], maxTokens, high, used + item.tokenCount, rest, j)
    ensures HasShape(items, maxTokens, high, used, [item] + rest, j + 1)
  {
    var out := [item] + rest;
    assert out[..j + 1] == [item] + rest[..j] && out[j + 1..] == rest[j..];
    TokensPrepend(item, rest[..j]);
    forall i | 0 <= i < j + 1 ensures out[i] == Passed(items[i], high) {
      if i > 0 {
        assert out[i] == rest[i - 1] && items[1..][i - 1] == items[i];
      }
    }
  }

  /** If everything fits, the pass changes nothing. */
  lemma {:induction false} PassKeepsFitting(items: seq<Item>, maxTokens: int, high: bool, used: int)
    requires NonNegative(items) && used + Tokens(items) <= maxTokens && (high ==> Matches(items))
    ensures Pass(items, maxTokens, high, used) == items
    decreases |items|
  {
    if items != [] {
      TailFacts(items, high);
      FirstPasses(items, maxTokens, high, used);
      PassKeepsFitting(items[1..], maxTokens, high, used + items[0].tokenCount);
    }
  }

  lemma TailFacts(items: seq<Item>, high: bool)
    requires items != [] && NonNegative(items) && (high ==> Matches(items))
    ensures NonNegative(items[1..]) && (high ==> Matches(items[1..]))
    ensures Tokens(items) == items[0].tokenCount + Tokens(items[1..]) >= items[0].tokenCount
  {
    assert items == [items[0]] + items[1..];
    TokensPrepend(items[0], items[1..]);
    TokensNonNegative(items[1..]);
    assert forall i :: 0 <= i < |items[1..]| ==> items[1..][i] == items[i + 1];
  }

  lemma FirstPasses(items: seq<Item>, maxTokens: int, high: bool, used: int)
    requires items != [] && used + items[0].tokenCount <= maxTokens && (high ==> Matches(items))
    ensures Pass(items[1..], maxTokens, high, used + items[0].tokenCount) == items[1..] ==>
        Pass(items, maxTokens, high, used) == items
  {
    assert items == [items[0]] + items[1..];
    assert Passed(items[0], high) == items[0];
  }

  lemma {:induction false} TokensNonNegative(items: seq<Item>)
    requires NonNegative(items)
    ensures Tokens(items) >= 0
  {
    if items != [] {
      TokensNonNegative(items[..|items| - 1]);
    }
  }

  // Zones and ranking

  const ESSENTIAL := {"project_instructions", "environment", "package_info"}

  predicate HasPrefix(s: string, prefix: string) {
    prefix <= s
  }

  predicate Contains(s: string, part: string) {
    exists i :: 0 <= i <= |s| && part <= s[i..]
  }

  predicate IsDirectory(zone: string) {
    zone != "" && zone[|zone| - 1] == '/'
  }

  predicate SourceMatchesZone(source: string, zone: string) {
    HasPrefix(source, zone) || Contains(source, if IsDirectory(zone) then zone else zone + "/")
  }

  predicate InZones(zones: seq<string>, item: Item) {
    item.kind in ESSENTIAL || exists i :: 0 <= i < |zones| && SourceMatchesZone(item.source, zones[i])
  }

  function ZoneFilter(zones: seq<string>): Item -> bool {
    (item: Item) => InZones(zones, item)
  }

  /** Instructions, environment and package information are always kept; other items need a matching zone. */
  lemma KeptInZones(zones: seq<string>, item: Item)
    ensures item.kind == "project_instructions" || item.kind == "environment" || item.kind == "package_info" ==>
              ZoneFilter(zones)(item)
    ensures item.kind != "project_instructions" && item.kind != "environment" && item.kind != "package_info" ==>
              (ZoneFilter(zones)(item) <==> exists i :: 0 <= i < |zones| && SourceMatchesZone(item.source, zones[i]))
  {
  }

  /** A source lies in a zone when it starts with it, or has the zone as a directory anywhere. */
  lemma ZoneMatches(before: string, zone: string, after: string)
    ensures SourceMatchesZone(zone + after, zone)
    ensures SourceMatchesZone(before + zone + "/" + after, zone)
    ensures IsDirectory(zone) ==> SourceMatchesZone(before + zone + after, zone)
  {
    var source := before + zone + "/" + after;
    assert source[|before|..] == zone + "/" + after;
    assert (before + zone + after)[|before|..] == zone + after;
    assert zone <= source[|before|..] && zone + "/" <= source[|before|..];
  }

  /** And not otherwise: a zone that occurs only inside a name does not match. */
  lemma ZoneMisses(source: string, zone: string)
    requires !IsDirectory(zone) && !(zone <= source)
    requires forall i :: 0 <= i <= |source| ==> !(zone + "/" <= source[i..])
    ensures !SourceMatchesZone(source, zone)
  {
  }

  method FilterItemsByZones(items: seq<Item>, zones: seq<string>) returns (filtered: seq<Item>)
    ensures filtered == Filtered(items, ZoneFilter(zones))
  {
    filtered := [];
    for i := 0 to |items|
      invariant filtered == Filtered(items[..i], ZoneFilter(zones))
    {
      assert items[..i + 1][..i] == items[..i];
      var matches := MatchesSomeZone(items[i], zones);
      if items[i].kind in ESSENTIAL || matches {
        filtered := filtered + [items[i]];
      }
    }
    assert items[..|items|] == items;
  }

  method MatchesSomeZone(item: Item, zones: seq<string>) returns (matches: bool)
    ensures matches <==> exists i :: 0 <= i < |zones| && SourceMatchesZone(item.source, zones[i])
  {
    for i := 0 to |zones|
      invariant forall j :: 0 <= j < i ==> !SourceMatchesZone(item.source, zones[j])
    {
      if SourceMatchesZone(item.source, zones[i]) {
        return true;
      }
    }
    return false;
  }

  function KnowledgeSource(kind: string): string {
    if kind in {"git_log", "git_diff", "git_status"} then "git_history"
    else if kind == "project_instructions" then "local_docs"
    else if kind == "package_info" then "dependencies"
    else "code_symbols"
  }

  const MINUTE := 60
  const HOUR := 3600

  /** Earlier sources weigh more; a repeated source counts at its last place. */
  function SourceWeights(sources: seq<string>, n: nat): map<string, int>
    requires n <= |sources|
  {
    if n == 0 then map[] else SourceWeights(sources, n - 1)[sources[n - 1] := |sources| - (n - 1)]
  }

  function Score(weights: map<string, int>, now: int, item: Item): int {
    var source := KnowledgeSource(item.kind);
    item.priority * 10
    + (if source in weights then weights[source] * 100 else 0)
    + (match item.gatheredAt
       case None => 0
       case Some(t) => if now - t < MINUTE then 50 else if now - t < HOUR then 20 else 0)
  }

  /** Which knowledge source each kind of context counts for. */
  lemma KnowledgeSources()
    ensures KnowledgeSource("git_log") == KnowledgeSource("git_diff") == KnowledgeSource("git_status") == "git_history"
    ensures KnowledgeSource("project_instructions") == "local_docs"
    ensures KnowledgeSource("package_info") == "dependencies"
    ensures forall kind :: kind !in {"git_log", "git_diff", "git_status", "project_instructions", "package_info"} ==>
              KnowledgeSource(kind) == "code_symbols"
  {
  }

  /** A source weighs by its last place in the list. */
  lemma {:induction false} WeightIsPlace(sources: seq<string>, n: nat, i: nat)
    requires i < n <= |sources| && forall k :: i < k < n ==> sources[k] != sources[i]
    ensures sources[i] in SourceWeights(sources, n) && SourceWeights(sources, n)[sources[i]] == |sources| - i
  {
    if i < n - 1 {
      WeightIsPlace(sources, n - 1, i);
    }
  }

  lemma {:induction false} UnlistedWeighsNothing(sources: seq<string>, n: nat, source: string)
    requires n <= |sources| && source !in sources
    ensures source !in SourceWeights(sources, n)
  {
    if n > 0 {
      UnlistedWeighsNothing(sources, n - 1, source);
    }
  }

  predicate LastPlace(sources: seq<string>, source: string, i: nat) {
    i < |sources| && sources[i] == source && forall k :: i < k < |sources| ==> sources[k] != source
  }

  /**
   * An item of an earlier source ranks above one of a later source or of none, whatever their ages, unless its
   * priority is lower by five or more.
   */
  lemma EarlierSourceRanksAbove(sources: seq<string>, now: int, x: Item, y: Item, i: nat)
    requires LastPlace(sources, KnowledgeSource(x.kind), i) && y.priority <= x.priority + 4
    requires KnowledgeSource(y.kind) in sources ==>
               exists j: nat :: i < j && LastPlace(sources, KnowledgeSource(y.kind), j)
    ensures RanksAbove(SourceWeights(sources, |sources|), now)(x, y)
  {
    var from, against := KnowledgeSource(x.kind), KnowledgeSource(y.kind);
    WeightIsPlace(sources, |sources|, i);
    if against in sources {
      var j: nat :| i < j && LastPlace(sources, against, j);
      WeightIsPlace(sources, |sources|, j);
    } else {
      UnlistedWeighsNothing(sources, |sources|, against);
    }
    HeavierRanksAbove(SourceWeights(sources, |sources|), now, x, y, from, against);
  }

  function WeightOf(weights: map<string, int>, source: string): int {
    if source in weights then weights[source] else 0
  }

  lemma HeavierRanksAbove(weights: map<string, int>, now: int, x: Item, y: Item, from: string, against: string)
    requires KnowledgeSource(x.kind) == from && KnowledgeSource(y.kind) == against
    requires WeightOf(weights, from) > WeightOf(weights, against) && y.priority <= x.priority + 4
    ensures RanksAbove(weights, now)(x, y)
  {
  }

  /**
   * Within one source, the last minute outweighs four steps of priority over an item of more than an hour, the last
   * hour one step, and at equal age the higher priority goes first.
   */
  lemma AgeAndPriorityRank(weights: map<string, int>, now: int, x: Item, y: Item)
    requires KnowledgeSource(x.kind) == KnowledgeSource(y.kind) && x.gatheredAt.Some? && y.gatheredAt.Some?
    ensures now - x.gatheredAt.value < 60 && now - y.gatheredAt.value >= 3600 ==>
              (RanksAbove(weights, now)(x, y) <==> y.priority <= x.priority + 4)
    ensures 60 <= now - x.gatheredAt.value < 3600 && now - y.gatheredAt.value >= 3600 ==>
              (RanksAbove(weights, now)(x, y) <==> y.priority <= x.priority + 1)
    ensures x.gatheredAt == y.gatheredAt ==> (RanksAbove(weights, now)(x, y) <==> x.priority > y.priority)
  {
  }

  function RanksAbove(weights: map<string, int>, now: int): (Item, Item) -> bool {
    (a: Item, b: Item) => Score(weights, now, a) > Score(weights, now, b)
  }

  lemma ScoreOrders(weights: map<string, int>, now: int)
    ensures StrictWeakOrder(RanksAbove(weights, now))
  {
  }

  method RankByKnowledgeSources(items: seq<Item>, sources: seq<string>, now: int) returns (ranked: seq<Item>)
    ensures IsSortOf(RanksAbove(SourceWeights(sources, |sources|), now), items, ranked)
  {
    var weights := map[];
    for i := 0 to |sources|
      invariant weights == SourceWeights(sources, i)
    {
      weights := weights[sources[i] := |sources| - i];
    }
    ScoreOrders(weights, now);
    ranked := Sort(items, RanksAbove(weights, now));
  }

  lemma {:induction false} TokensReorder(a: seq<Item>, b: seq<Item>)
    requires multiset(a) == multiset(b)
    ensures Tokens(a) == Tokens(b)
    decreases |a|
  {
    SameLength(a, b);
    if a != [] {
      var k := MatchLast(a, b);
      TokensRemove(b, k);
      TokensReorder(a[..|a| - 1], b[..k] + b[k + 1..]);
    }
  }

  lemma {:induction false} TokensRemove(s: seq<Item>, k: nat)
    requires k < |s|
    ensures Tokens(s) == Tokens(s[..k] + s[k + 1..]) + s[k].tokenCount
    decreases |s|
  {
    var n := |s| - 1;
    var without := s[..k] + s[k + 1..];
    if k == n {
      assert without == s[..n];
    } else {
      TokensRemove(s[..n], k);
      assert without[..|without| - 1] == s[..n][..k] + s[..n][k + 1..];
      assert without[|without| - 1] == s[n];
    }
  }

  lemma {:induction false} FilteringSaves(items: seq<Item>, p: Item -> bool)
    requires NonNegative(items)
    ensures Tokens(Filtered(items, p)) <= Tokens(items)
  {
    if items != [] {
      var front, item := items[..|items| - 1], items[|items| - 1];
      FilteringSaves(front, p);
      TokensAppend(Filtered(front, p), item, "");
      assert Filtered(front, p) + [] == Filtered(front, p);
    }
  }

  // The two stages together

  function ZoneStage(included: seq<Item>, zones: seq<string>): seq<Item> {
    if zones == [] then included else Filtered(included, ZoneFilter(zones))
  }

  /** No zones, no filter; otherwise the kept items are the included ones that belong. */
  lemma ZoneStageMeaning(included: seq<Item>, zones: seq<string>)
    ensures zones == [] ==> ZoneStage(included, zones) == included
    ensures zones != [] ==>
              forall x :: x in ZoneStage(included, zones) <==>
                x in included && (x.kind in {"project_instructions", "environment", "package_info"}
                                  || exists i :: 0 <= i < |zones| && SourceMatchesZone(x.source, zones[i]))
  {
    FilteredMembers(included, ZoneFilter(zones));
  }

  /** Budgeted selection, zone filter, ranking, then the budget pass with the same budget. */
  method BuildWithPlan(b: Budget, caps: Caps, gathered: seq<Item>, zones: seq<string>, sources: seq<string>, high: bool,
      now: int)
    returns (pack: seq<Item>, stage1: BuilderResult)
    ensures BuiltFrom(b, caps, gathered, stage1)
    ensures NonNegative(gathered) && (high ==> Matches(gathered)) ==>
              && multiset(pack) == multiset(ZoneStage(stage1.included, zones))
              && SortedBy(RanksAbove(SourceWeights(sources, |sources|), now), pack)
              && Tokens(pack) <= AvailableForContext(b)
  {
    stage1 := BuildWithBudget(b, caps, gathered);
    var items := stage1.included;
    if |zones| > 0 {
      items := FilterItemsByZones(items, zones);
    }
    var ranked := RankByKnowledgeSources(items, sources, now);
    pack := ApplyBudgetAndRedact(ranked, AvailableForContext(b), high);
    if NonNegative(gathered) && (high ==> Matches(gathered)) {
      NothingIsCut(b, caps, gathered, zones, stage1, ranked, high);
    }
  }

  lemma ComesFrom(b: Budget, caps: Caps, gathered: seq<Item>, r: BuilderResult, item: Item)
    requires BuiltFrom(b, caps, gathered, r) && item in r.included
    ensures item in gathered
  {
    BuildIsGood(b, caps, gathered, r);
    assert item in multiset(r.included) + multiset(r.excluded);
    assert item in Eligible(b, gathered);
    FilteredMembers(gathered, MeetsPriority(b));
  }

  /** The first stage kept within the budget the last stage checks, so the last stage drops and cuts nothing. */
  lemma NothingIsCut(b: Budget, caps: Caps, gathered: seq<Item>, zones: seq<string>, r: BuilderResult,
      ranked: seq<Item>, high: bool)
    requires BuiltFrom(b, caps, gathered, r) && multiset(ranked) == multiset(ZoneStage(r.included, zones))
    requires NonNegative(gathered) && (high ==> Matches(gathered))
    ensures Pass(ranked, AvailableForContext(b), high, 0) == ranked
    ensures Tokens(ranked) <= AvailableForContext(b)
  {
    forall x | x in r.included ensures x in gathered {
      ComesFrom(b, caps, gathered, r, x);
    }
    InheritedFacts(gathered, r.included, high);
    BuildIsGood(b, caps, gathered, r);
    var kept := ZoneStage(r.included, zones);
    if zones != [] {
      FilteringSaves(r.included, ZoneFilter(zones));
      FilteredMembers(r.included, ZoneFilter(zones));
    }
    forall x | x in ranked ensures x in r.included {
      assert x in multiset(ranked);
      assert x in kept;
    }
    InheritedFacts(r.included, ranked, high);
    TokensReorder(ranked, kept);
    PassKeepsFitting(ranked, AvailableForContext(b), high, 0);
  }

  lemma InheritedFacts(from: seq<Item>, items: seq<Item>, high: bool)
    requires NonNegative(from) && (high ==> Matches(from)) && forall x :: x in items ==> x in from
    ensures NonNegative(items) && (high ==> Matches(items))
  {
    forall i | 0 <= i < |items|
        ensures items[i].tokenCount >= 0 && (high ==> items[i].tokenCount == EstimateTokens(items[i].content)) {
      assert items[i] in items;
      var k :| 0 <= k < |from| && from[k] == items[i];
    }
  }
}
