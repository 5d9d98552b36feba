/** Packing retrieved memories into a context of limited size: `build_context`. */
module ContextPacker {
  import opened Prelude

  datatype Level = L3 | L2 | L1 | Other

  datatype Item = Item(id: nat, level: Level, title: string, memoryType: string, content: string)

  // ---------- the text ----------

  function Prefix(projectKey: string): string {
    "[Project Context]\nproject_id: " + projectKey + "\n\n[Error Memory - L3]\n"
  }

  const HEADING_L2 := "\n\n[Knowledge Base - L2]\n"
  const HEADING_L1 := "\n\n[Working Memory - L1]\n"

  function Tail(task: string): string {
    "\n[Current Task]\n" + task
  }

  function Line(item: Item): string {
    "- " + item.title + " (type=" + item.memoryType + ")\n  " + item.content + "\n"
  }

  function Lines(items: seq<Item>): string {
    if |items| == 0 then "" else Lines(items[..|items| - 1]) + Line(items[|items| - 1])
  }

  /** `max(1, ceil(len(text) / 6))`. */
  function EstimateTokens(text: string): nat {
    if |text| == 0 then 1 else (|text| + 5) / 6
  }

  function ClampBudget(tokens: int): (b: nat)
    ensures 1 <= b <= 12000
  {
    if tokens < 1 then 1 else if tokens > 12000 then 12000 else tokens
  }

  // ---------- the greedy selection ----------

  function OfLevel(items: seq<Item>, level: Level): seq<Item> {
    if |items| == 0 then []
    else
      OfLevel(items[..|items| - 1], level) + if items[|items| - 1].level == level then [items[|items| - 1]] else []
  }

  /** Text so far, what is in it, and what did not fit. */
  datatype Pack = Pack(text: string, chosen: seq<Item>, dropped: seq<Item>)

  function Offer(p: Pack, item: Item, tail: string, budget: nat): Pack {
    if EstimateTokens(p.text + Line(item) + tail) > budget then p.(dropped := p.dropped + [item])
    else p.(text := p.text + Line(item), chosen := p.chosen + [item])
  }

  function OfferAll(p: Pack, items: seq<Item>, tail: string, budget: nat): Pack {
    if |items| == 0 then p else Offer(OfferAll(p, items[..|items| - 1], tail, budget), items[|items| - 1], tail, budget)
  }

  function AddHeading(p: Pack, heading: string): Pack {
    p.(text := p.text + heading)
  }

  /** The text before the closing section, and the selection. */
  function Packed(projectKey: string, task: string, results: seq<Item>, budget: nat): Pack {
    var p3 := OfferAll(Pack(Prefix(projectKey), [], []), OfLevel(results, L3), Tail(task), budget);
    var p2 := OfferAll(AddHeading(p3, HEADING_L2), OfLevel(results, L2), Tail(task), budget);
    OfferAll(AddHeading(p2, HEADING_L1), OfLevel(results, L1), Tail(task), budget)
  }

  function Ids(items: seq<Item>): seq<nat> {
    seq(|items|, i requires 0 <= i < |items| => items[i].id)
  }

  method PackLevel(text: string, sourceIds: seq<nat>, truncated: bool, ghost p: Pack, items: seq<Item>, task: string, budget: nat)
    returns (text': string, sourceIds': seq<nat>, truncated': bool)
    requires text == p.text && sourceIds == Ids(p.chosen) && truncated == (|p.dropped| > 0)
    ensures var q := OfferAll(p, items, Tail(task), budget);
      text' == q.text && sourceIds' == Ids(q.chosen) && truncated' == (|q.dropped| > 0)
  {
    text', sourceIds', truncated' := text, sourceIds, truncated;
    for i := 0 to |items|
      invariant var q := OfferAll(p, items[..i], Tail(task), budget);
        text' == q.text && sourceIds' == Ids(q.chosen) && truncated' == (|q.dropped| > 0)
    {
      var line := Line(items[i]);
      var candidate := text' + line + Tail(task);
      assert items[..i + 1][..i] == items[..i];
      if EstimateTokens(candidate) > budget {
        truncated' := true;
      } else {
        text' := text' + line;
        sourceIds' := sourceIds' + [items[i].id];
      }
    }
    assert items[..|items|] == items;
  }

  method BuildContext(projectKey: string, task: string, results: seq<Item>, contextBudgetTokens: int)
    returns (context: string, sourceIds: seq<nat>, used: nat, truncated: bool)
    ensures var budget := ClampBudget(contextBudgetTokens);
      var p := Packed(projectKey, task, results, budget);
      && context == p.text + Tail(task)
      && sourceIds == Ids(p.chosen)
      && used <= budget && (used == EstimateTokens(context) || (used == budget && EstimateTokens(context) > budget))
      && (truncated <==> |p.chosen| < |OfLevel(results, L3)| + |OfLevel(results, L2)| + |OfLevel(results, L1)|)
  {
    var budget := ClampBudget(contextBudgetTokens);
    var group3: seq<Item>, group2: seq<Item>, group1: seq<Item> := [], [], [];
    for i := 0 to |results|
      invariant group3 == OfLevel(results[..i], L3)
      invariant group2 == OfLevel(results[..i], L2)
      invariant group1 == OfLevel(results[..i], L1)
    {
      assert results[..i + 1][..i] == results[..i];
      match results[i].level {
        case L3 => group3 := group3 + [results[i]];
        case L2 => group2 := group2 + [results[i]];
        case L1 => group1 := group1 + [results[i]];
        case Other =>
      }
    }
    assert results[..|results|] == results;
    var remaining := group3 + group2 + group1;
    context, sourceIds, truncated := Prefix(projectKey), [], false;
    ghost var p := Pack(context, [], []);
    context, sourceIds, truncated := PackLevel(context, sourceIds, truncated, p, group3, task, budget);
    p := OfferAll(p, group3, Tail(task), budget);
    context, p := context + HEADING_L2, AddHeading(p, HEADING_L2);
    context, sourceIds, truncated := PackLevel(context, sourceIds, truncated, p, group2, task, budget);
    p := OfferAll(p, group2, Tail(task), budget);
    context, p := context + HEADING_L1, AddHeading(p, HEADING_L1);
    context, sourceIds, truncated := PackLevel(context, sourceIds, truncated, p, group1, task, budget);
    p := OfferAll(p, group1, Tail(task), budget);
    PackedCounts(projectKey, task, results, budget);
    context := context + Tail(task);
    used := EstimateTokens(context);
    if used > budget {
      used := budget;
    }
    if |sourceIds| < |remaining| {
      truncated := true;
    }
  }

  // ---------- what is selected ----------

  /** b is what is left of a after deleting some items. */
  predicate Subsequence(b: seq<Item>, a: seq<Item>) {
    if |a| == 0 then |b| == 0
    else
      Subsequence(b, a[..|a| - 1])
      || (|b| > 0 && b[|b| - 1] == a[|a| - 1] && Subsequence(b[..|b| - 1], a[..|a| - 1]))
  }

  function Added(p: Pack, q: Pack): seq<Item>
    requires |p.chosen| <= |q.chosen|
  {
    q.chosen[|p.chosen|..]
  }

  lemma Associates(a: string, b: string, c: string)
    ensures (a + b) + c == a + (b + c)
  {
  }

  /** One more item of a level, on top of what the items before it added. */
  lemma {:induction false} OfferAdds(p: Pack, r: Pack, items: seq<Item>, item: Item, tail: string, budget: nat)
    requires p.chosen <= r.chosen && Subsequence(Added(p, r), items) && r.text == p.text + Lines(Added(p, r))
    ensures var q := Offer(r, item, tail, budget);
      && p.chosen <= q.chosen
      && Subsequence(Added(p, q), items + [item])
      && q.text == p.text + Lines(Added(p, q))
  {
    var q, more := Offer(r, item, tail, budget), items + [item];
    assert more[..|more| - 1] == items;
    if |q.chosen| > |r.chosen| {
      var added := Added(p, r);
      assert Added(p, q) == added + [item];
      assert (added + [item])[..|added|] == added;
      Associates(p.text, Lines(added), Line(item));
    } else {
      assert Added(p, q) == Added(p, r);
    }
  }

  /** One level: a subsequence of its items is appended, each item is counted once. */
  lemma {:induction false} OfferAllAdds(p: Pack, items: seq<Item>, tail: string, budget: nat)
    ensures var q := OfferAll(p, items, tail, budget);
      && p.chosen <= q.chosen && p.dropped <= q.dropped
      && Subsequence(Added(p, q), items)
      && q.text == p.text + Lines(Added(p, q))
      && |q.chosen| + |q.dropped| == |p.chosen| + |p.dropped| + |items|
    decreases |items|
  {
    if |items| != 0 {
      var n := |items| - 1;
      OfferAllAdds(p, items[..n], tail, budget);
      OfferAdds(p, OfferAll(p, items[..n], tail, budget), items[..n], items[n], tail, budget);
      assert items == items[..n] + [items[n]];
    } else {
      assert Added(p, p) == [];
    }
  }

  lemma {:induction false} PackedCounts(projectKey: string, task: string, results: seq<Item>, budget: nat)
    ensures var p := Packed(projectKey, task, results, budget);
      |p.chosen| + |p.dropped| == |OfLevel(results, L3)| + |OfLevel(results, L2)| + |OfLevel(results, L1)|
  {
    var start := Pack(Prefix(projectKey), [], []);
    var p3 := OfferAll(start, OfLevel(results, L3), Tail(task), budget);
    var p2 := OfferAll(AddHeading(p3, HEADING_L2), OfLevel(results, L2), Tail(task), budget);
    OfferAllAdds(start, OfLevel(results, L3), Tail(task), budget);
    OfferAllAdds(AddHeading(p3, HEADING_L2), OfLevel(results, L2), Tail(task), budget);
    OfferAllAdds(AddHeading(p2, HEADING_L1), OfLevel(results, L1), Tail(task), budget);
  }

  /** One level under its heading. */
  lemma LevelAdds(p: Pack, heading: string, items: seq<Item>, tail: string, budget: nat) returns (added: seq<Item>)
    ensures var q := OfferAll(AddHeading(p, heading), items, tail, budget);
      && Subsequence(added, items)
      && q.chosen == p.chosen + added
      && q.text == p.text + heading + Lines(added)
  {
    OfferAllAdds(AddHeading(p, heading), items, tail, budget);
    added := Added(AddHeading(p, heading), OfferAll(AddHeading(p, heading), items, tail, budget));
  }

  /**
   The chosen items are the L3, then the L2, then the L1 subsequences of the search result,
   and the text is exactly the prefix, their lines under their headings, and the closing section.
   */
  lemma Selection(projectKey: string, task: string, results: seq<Item>, budget: nat)
    returns (s3: seq<Item>, s2: seq<Item>, s1: seq<Item>)
    ensures Subsequence(s3, OfLevel(results, L3))
    ensures Subsequence(s2, OfLevel(results, L2))
    ensures Subsequence(s1, OfLevel(results, L1))
    ensures Packed(projectKey, task, results, budget).chosen == s3 + s2 + s1
    ensures Packed(projectKey, task, results, budget).text
      == Prefix(projectKey) + Lines(s3) + HEADING_L2 + Lines(s2) + HEADING_L1 + Lines(s1)
  {
    s3, s2, s1 := ThreeLevels(Prefix(projectKey), HEADING_L2, HEADING_L1,
                              OfLevel(results, L3), OfLevel(results, L2), OfLevel(results, L1), Tail(task), budget);
  }

  lemma ThreeLevels(prefix: string, heading2: string, heading1: string, items3: seq<Item>, items2: seq<Item>, items1: seq<Item>,
                    tail: string, budget: nat)
    returns (s3: seq<Item>, s2: seq<Item>, s1: seq<Item>)
    ensures Subsequence(s3, items3) && Subsequence(s2, items2) && Subsequence(s1, items1)
    ensures var p3 := OfferAll(Pack(prefix, [], []), items3, tail, budget);
      var p2 := OfferAll(AddHeading(p3, heading2), items2, tail, budget);
      var p1 := OfferAll(AddHeading(p2, heading1), items1, tail, budget);
      && p1.chosen == s3 + s2 + s1
      && p1.text == prefix + Lines(s3) + heading2 + Lines(s2) + heading1 + Lines(s1)
  {
    var start := Pack(prefix, [], []);
    OfferAllAdds(start, items3, tail, budget);
    var p3 := OfferAll(start, items3, tail, budget);
    s3 := Added(start, p3);
    assert p3.chosen == s3;
    s2 := LevelAdds(p3, heading2, items2, tail, budget);
    var p2 := OfferAll(AddHeading(p3, heading2), items2, tail, budget);
    s1 := LevelAdds(p2, heading1, items1, tail, budget);
  }

  // ---------- size ----------

  lemma {:induction false} OfferAllFits(p: Pack, items: seq<Item>, tail: string, budget: nat)
    requires budget >= 1
    ensures var q := OfferAll(p, items, tail, budget);
      && |p.text| <= |q.text| && |p.chosen| <= |q.chosen|
      && (|q.chosen| == |p.chosen| ==> q.text == p.text)
      && (|q.chosen| > |p.chosen| ==> |q.text| + |tail| <= 6 * budget)
    decreases |items|
  {
    if |items| != 0 {
      var n := |items| - 1;
      OfferAllFits(p, items[..n], tail, budget);
      var r := OfferAll(p, items[..n], tail, budget);
    }
  }

  /** How far the context can exceed its budget: by headings added after the last check. */
  lemma {:induction false} SizeBound(projectKey: string, task: string, results: seq<Item>, budget: nat)
    requires budget >= 1
    ensures var start := Pack(Prefix(projectKey), [], []);
      var p3 := OfferAll(start, OfLevel(results, L3), Tail(task), budget);
      var p2 := OfferAll(AddHeading(p3, HEADING_L2), OfLevel(results, L2), Tail(task), budget);
      var p := Packed(projectKey, task, results, budget);
      var size := |p.text + Tail(task)|;
      if |p.chosen| > |p2.chosen| then size <= 6 * budget && EstimateTokens(p.text + Tail(task)) <= budget
      else if |p2.chosen| > |p3.chosen| then size <= 6 * budget + |HEADING_L1|
      else if |p3.chosen| > 0 then size <= 6 * budget + |HEADING_L2| + |HEADING_L1|
      else size == |Prefix(projectKey)| + |HEADING_L2| + |HEADING_L1| + |Tail(task)|
  {
    var start := Pack(Prefix(projectKey), [], []);
    var p3 := OfferAll(start, OfLevel(results, L3), Tail(task), budget);
    var p2 := OfferAll(AddHeading(p3, HEADING_L2), OfLevel(results, L2), Tail(task), budget);
    OfferAllFits(start, OfLevel(results, L3), Tail(task), budget);
    OfferAllFits(AddHeading(p3, HEADING_L2), OfLevel(results, L2), Tail(task), budget);
    OfferAllFits(AddHeading(p2, HEADING_L1), OfLevel(results, L1), Tail(task), budget);
  }

  /** The text and tail before any L1 item is offered. */
  function BeforeL1(projectKey: string, task: string, results: seq<Item>, budget: nat): string {
    var p3 := OfferAll(Pack(Prefix(projectKey), [], []), OfLevel(results, L3), Tail(task), budget);
    var p2 := OfferAll(AddHeading(p3, HEADING_L2), OfLevel(results, L2), Tail(task), budget);
    AddHeading(p2, HEADING_L1).text + Tail(task)
  }

  /** The context is within its budget exactly when it was before any L1 item was offered. */
  lemma WithinBudgetExact(projectKey: string, task: string, results: seq<Item>, budget: nat)
    requires budget >= 1
    ensures EstimateTokens(Packed(projectKey, task, results, budget).text + Tail(task)) <= budget
      <==> EstimateTokens(BeforeL1(projectKey, task, results, budget)) <= budget
  {
    var p3 := OfferAll(Pack(Prefix(projectKey), [], []), OfLevel(results, L3), Tail(task), budget);
    var p2 := OfferAll(AddHeading(p3, HEADING_L2), OfLevel(results, L2), Tail(task), budget);
    OfferAllFits(AddHeading(p2, HEADING_L1), OfLevel(results, L1), Tail(task), budget);
  }

  /** Nothing retrieved and a budget of one token: the frame alone exceeds it. */
  lemma FrameExceedsBudget(projectKey: string, task: string)
    ensures EstimateTokens(Packed(projectKey, task, [], 1).text + Tail(task)) > 1
  {
    assert |HEADING_L2| > 6;
    SizeBound(projectKey, task, [], 1);
  }

  // ---------- maximality ----------

  /** No dropped item would fit into a text of this size. */
  ghost predicate NoneFits(dropped: seq<Item>, size: nat, budget: nat) {
    forall k :: 0 <= k < |dropped| ==> size + |Line(dropped[k])| > 6 * budget
  }

  lemma {:induction false} OfferAllMaximal(p: Pack, items: seq<Item>, tail: string, budget: nat)
    requires budget >= 1 && NoneFits(p.dropped, |p.text| + |tail|, budget)
    ensures var q := OfferAll(p, items, tail, budget);
      |p.text| <= |q.text| && NoneFits(q.dropped, |q.text| + |tail|, budget)
    decreases |items|
  {
    if |items| != 0 {
      var n := |items| - 1;
      OfferAllMaximal(p, items[..n], tail, budget);
      var r := OfferAll(p, items[..n], tail, budget);
    }
  }

  /** The selection is maximal: the line of any skipped item would push the final text over budget. */
  lemma Maximal(projectKey: string, task: string, results: seq<Item>, budget: nat)
    requires budget >= 1
    ensures var p := Packed(projectKey, task, results, budget);
      forall item :: item in p.dropped ==> |p.text + Tail(task)| + |Line(item)| > 6 * budget
  {
    var start := Pack(Prefix(projectKey), [], []);
    var p3 := OfferAll(start, OfLevel(results, L3), Tail(task), budget);
    var p2 := OfferAll(AddHeading(p3, HEADING_L2), OfLevel(results, L2), Tail(task), budget);
    OfferAllMaximal(start, OfLevel(results, L3), Tail(task), budget);
    OfferAllMaximal(AddHeading(p3, HEADING_L2), OfLevel(results, L2), Tail(task), budget);
    OfferAllMaximal(AddHeading(p2, HEADING_L1), OfLevel(results, L1), Tail(task), budget);
  }

  // ---------- the truncation flag ----------

  lemma {:induction false} LevelsPartition(results: seq<Item>)
    ensures |OfLevel(results, L3)| + |OfLevel(results, L2)| + |OfLevel(results, L1)| + |OfLevel(results, Other)| == |results|
  {
    if |results| != 0 {
      LevelsPartition(results[..|results| - 1]);
    }
  }

  /**
   The flag is up exactly when an item of a known level was dropped; items of any other
   level are dropped without raising it.
   */
  lemma {:induction false} TruncationExact(projectKey: string, task: string, results: seq<Item>, budget: nat)
    ensures var p := Packed(projectKey, task, results, budget);
      var truncated := |p.chosen| < |OfLevel(results, L3)| + |OfLevel(results, L2)| + |OfLevel(results, L1)|;
      && (truncated <==> |p.dropped| > 0)
      && (|p.chosen| < |results| <==> truncated || |OfLevel(results, Other)| > 0)
  {
    PackedCounts(projectKey, task, results, budget);
    LevelsPartition(results);
  }

  /** One item of an unknown level: nothing is packed, and the flag stays down. */
  lemma UnknownLevelVanishes(projectKey: string, task: string, item: Item, budget: nat)
    requires item.level == Other
    ensures Packed(projectKey, task, [item], budget).chosen == []
    ensures Packed(projectKey, task, [item], budget).dropped == []
  {
    assert [item][..0] == [];
    assert forall level :: level != Other ==> OfLevel([item], level) == [];
  }

  // ---------- what the search hands over ----------

  lemma {:induction false} LevelInOrder(results: seq<Item>, level: Level)
    ensures Subsequence(OfLevel(results, level), results)
  {
    if |results| != 0 {
      var n := |results| - 1;
      var rest := OfLevel(results[..n], level);
      LevelInOrder(results[..n], level);
      if results[n].level == level {
        assert OfLevel(results, level) == rest + [results[n]];
        assert (rest + [results[n]])[..|rest|] == rest;
      } else {
        assert OfLevel(results, level) == rest;
      }
    }
  }

  lemma {:induction false} LevelCounts(results: seq<Item>, level: Level, item: Item)
    ensures multiset(OfLevel(results, level))[item] == if item.level == level then multiset(results)[item] else 0
  {
    if |results| != 0 {
      var n := |results| - 1;
      LevelCounts(results[..n], level, item);
      assert results == results[..n] + [results[n]];
    }
  }

  /** The items of a level are those of the result, as often and in the same order. */
  lemma {:induction false} LevelExact(results: seq<Item>, level: Level)
    ensures Subsequence(OfLevel(results, level), results)
    ensures forall item ::
      multiset(OfLevel(results, level))[item] == if item.level == level then multiset(results)[item] else 0
  {
    LevelInOrder(results, level);
    forall item ensures multiset(OfLevel(results, level))[item] == if item.level == level then multiset(results)[item] else 0 {
      LevelCounts(results, level, item);
    }
  }

  /** A budget is taken as it is from 1 to 12000 tokens, and brought to the nearer end otherwise. */
  lemma ClampExact(tokens: int)
    ensures 1 <= tokens <= 12000 ==> ClampBudget(tokens) == tokens
    ensures tokens < 1 ==> ClampBudget(tokens) == 1
    ensures tokens > 12000 ==> ClampBudget(tokens) == 12000
  {
  }

  /** The estimate is the least number of tokens, of six characters each, that the text fits in, and at least one. */
  lemma EstimateExact(text: string)
    ensures var n := EstimateTokens(text);
      n >= 1 && |text| <= 6 * n && (n > 1 ==> 6 * (n - 1) < |text|)
  {
  }
}
