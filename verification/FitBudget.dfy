/** Shrinking a conversation to a token budget without splitting tool runs. */
module FitBudget {
  import opened Text
  import opened Conversation
  import opened ToolPairs
  import opened HistoryRepair
  import opened Truncation

  /** The token estimate of an item, and how one item is cut to a number of tokens. The results
      below hold for every estimate; cutting is `TruncatedItem` in the program. */
  datatype Sizer = Sizer(cost: Item -> nat, cut: (Item, nat) -> Item)

  ghost predicate CutsTextOnly(z: Sizer) {
    forall item, n :: Skeleton(z.cut(item, n)) == Skeleton(item)
  }

  lemma ProgramCutsTextOnly(cost: Item -> nat)
    ensures CutsTextOnly(Sizer(cost, (item: Item, n: nat) => TruncatedItem(item, n)))
  {
    forall item: Item, n: nat ensures Skeleton(TruncatedItem(item, n)) == Skeleton(item) {
      TruncationKeepsStructure(item, n);
    }
  }

  // ---------- Fitting the conversation ----------

  function Total(z: Sizer, items: seq<Item>): nat {
    if items == [] then 0 else z.cost(items[0]) + Total(z, items[1..])
  }

  /** Where the longest affordable suffix starts. */
  function AffordableStart(z: Sizer, body: seq<Item>, budget: nat): (k: nat)
    ensures k <= |body|
  {
    if Total(z, body) <= budget then 0 else 1 + AffordableStart(z, body[1..], budget)
  }

  lemma {:induction false} AffordableStartIsLongest(z: Sizer, body: seq<Item>, budget: nat)
    ensures var k := AffordableStart(z, body, budget);
      Total(z, body[k..]) <= budget && forall j: nat :: j < k ==> Total(z, body[j..]) > budget
  {
    var k := AffordableStart(z, body, budget);
    assert body[0..] == body;
    if k > 0 {
      AffordableStartIsLongest(z, body[1..], budget);
      assert body[k..] == body[1..][k - 1..];
      forall j: nat | j < k ensures Total(z, body[j..]) > budget {
        assert j > 0 ==> body[j..] == body[1..][j - 1..];
      }
    }
  }

  function WholeTurnStart(z: Sizer, body: seq<Item>, budget: nat): (n: nat)
    ensures n <= |body| && (n < |body| ==> !body[n].ToolResult?)
  {
    var k := AffordableStart(z, body, budget);
    k + RunLength(body[k..])
  }

  /** `items` without the tool results that end it. */
  function TailFront(items: seq<Item>): (front: seq<Item>)
    ensures front <= items && (front != [] ==> !front[|front| - 1].ToolResult?)
  {
    if items != [] && items[|items| - 1].ToolResult? then TailFront(items[..|items| - 1]) else items
  }

  lemma {:induction false} TailRunIsRun(items: seq<Item>)
    ensures IsRun(items[|TailFront(items)|..]) && items == TailFront(items) + items[|TailFront(items)|..]
  {
    if items != [] && items[|items| - 1].ToolResult? {
      var n := |items| - 1;
      TailRunIsRun(items[..n]);
      assert items[|TailFront(items)|..] == items[..n][|TailFront(items)|..] + [items[n]];
    }
  }

  function TruncatedRun(z: Sizer, run: seq<Item>, maxTokens: nat): (r: seq<Item>)
    ensures |r| == |run|
  {
    if run == [] then [] else [z.cut(run[0], maxTokens)] + TruncatedRun(z, run[1..], maxTokens)
  }

  function PerResult(z: Sizer, owner: seq<Item>, count: nat, budget: nat): nat
    requires count > 0
  {
    var share := Saturating(budget, Total(z, owner)) / count;
    if share == 0 then 1 else share
  }

  function Owner(front: seq<Item>): seq<Item> {
    if front != [] && HasCalls(front[|front| - 1]) then [front[|front| - 1]] else []
  }

  /** The most recent turn, cut down in place. */
  function TailUnit(z: Sizer, body: seq<Item>, budget: nat): seq<Item> {
    var front := TailFront(body);
    var run := body[|front|..];
    if run == [] then
      if body == [] then [] else [z.cut(body[|body| - 1], budget)]
    else Owner(front) + TruncatedRun(z, run, PerResult(z, Owner(front), |run|, budget))
  }

  function FitBody(z: Sizer, body: seq<Item>, budget: nat): seq<Item> {
    var start := WholeTurnStart(z, body, budget);
    if start < |body| then body[start..] else TailUnit(z, body, budget)
  }

  function HeadLength(conversation: seq<Item>): (n: nat)
    ensures n <= |conversation|
  {
    if conversation != [] && conversation[0].System? then 1 else 0
  }

  function Fit(z: Sizer, conversation: seq<Item>, maxTokens: nat): seq<Item> {
    if Total(z, conversation) <= maxTokens then conversation
    else
      var h := HeadLength(conversation);
      var head, body := conversation[..h], conversation[h..];
      head + FitBody(z, body, Saturating(maxTokens, Total(z, head)))
  }

  // ---------- The loops ----------

  lemma {:induction false} TotalConcat(z: Sizer, a: seq<Item>, b: seq<Item>)
    ensures Total(z, a + b) == Total(z, a) + Total(z, b)
  {
    if a == [] {
      assert a + b == b;
    } else {
      assert (a + b)[1..] == a[1..] + b;
      TotalConcat(z, a[1..], b);
    }
  }

  lemma SuffixesShrink(z: Sizer, body: seq<Item>, i: nat, j: nat)
    requires i <= j <= |body|
    ensures Total(z, body[j..]) <= Total(z, body[i..])
  {
    assert body[i..] == body[i..j] + body[j..];
    TotalConcat(z, body[i..j], body[j..]);
  }

  lemma AffordableStartIs(z: Sizer, body: seq<Item>, budget: nat, k: nat)
    requires k <= |body| && Total(z, body[k..]) <= budget && (k > 0 ==> Total(z, body[k - 1..]) > budget)
    ensures k == AffordableStart(z, body, budget)
  {
    var a := AffordableStart(z, body, budget);
    AffordableStartIsLongest(z, body, budget);
    if a < k {
      SuffixesShrink(z, body, a, k - 1);
    }
  }

  method FindAffordableStart(z: Sizer, body: seq<Item>, budget: nat) returns (start: nat)
    ensures start == AffordableStart(z, body, budget)
  {
    var remaining: nat := budget;
    start := |body|;
    while start > 0
      invariant 0 <= start <= |body| && remaining + Total(z, body[start..]) == budget
    {
      var i := start - 1;
      var c := z.cost(body[i]);
      assert body[i..][1..] == body[start..];
      if c > remaining {
        AffordableStartIs(z, body, budget, start);
        return;
      }
      remaining := remaining - c;
      start := i;
    }
    AffordableStartIs(z, body, budget, 0);
  }

  method FindWholeTurnStart(z: Sizer, body: seq<Item>, budget: nat) returns (start: nat)
    ensures start == WholeTurnStart(z, body, budget)
  {
    start := FindAffordableStart(z, body, budget);
    ghost var k := start;
    while start < |body| && body[start].ToolResult?
      invariant k <= start <= |body| && forall j :: k <= j < start ==> body[j].ToolResult?
    {
      start := start + 1;
    }
    assert body[k..] == body[k..start] + body[start..];
    RunLengthOf(body[k..start], body[start..]);
  }

  method RecoverTruncatedTailUnit(z: Sizer, body: seq<Item>, budget: nat) returns (unit: seq<Item>)
    ensures unit == TailUnit(z, body, budget)
  {
    var front, results := body, [];
    while front != [] && front[|front| - 1].ToolResult?
      invariant body == front + results && TailFront(front) == TailFront(body)
      decreases |front|
    {
      var last := |front| - 1;
      assert front == front[..last] + [front[last]];
      Assoc(front[..last], [front[last]], results);
      front, results := front[..last], [front[last]] + results;
    }
    assert front == TailFront(body) && results == body[|front|..];
    if results == [] {
      assert front == body;
      return if front == [] then [] else [z.cut(front[|front| - 1], budget)];
    }
    unit := Owner(front) + TruncatedRun(z, results, PerResult(z, Owner(front), |results|, budget));
  }

  method FitConversationToBudget(z: Sizer, conversation: seq<Item>, maxTokens: nat) returns (fitted: seq<Item>)
    ensures fitted == Fit(z, conversation, maxTokens)
  {
    if Total(z, conversation) <= maxTokens {
      return conversation;
    }
    var h := HeadLength(conversation);
    var head, body := conversation[..h], conversation[h..];
    var budget := Saturating(maxTokens, Total(z, head));
    var start := FindWholeTurnStart(z, body, budget);
    if start < |body| {
      return head + body[start..];
    }
    var unit := RecoverTruncatedTailUnit(z, body, budget);
    return head + unit;
  }

  // ---------- What fitting keeps ----------

  lemma {:induction false} TruncatedRunIsPaired(z: Sizer, run: seq<Item>, maxTokens: nat, ids: set<string>)
    requires IsRun(run) && Ids(run) <= ids && CutsTextOnly(z)
    ensures IsRun(TruncatedRun(z, run, maxTokens)) && Ids(TruncatedRun(z, run, maxTokens)) <= ids
  {
    if run != [] {
      TruncatedRunIsPaired(z, run[1..], maxTokens, ids);
      assert TruncatedRun(z, run, maxTokens)[1..] == TruncatedRun(z, run[1..], maxTokens);
    }
  }

  /** In a paired list the results that end it were all declared by the item before them. */
  lemma {:induction false} TrailingRunIsOwned(items: seq<Item>, run: set<string>, front: seq<Item>, results: seq<Item>)
    requires items == front + results && PairedFrom(items, run) && IsRun(results) && results != []
    requires front != [] ==> !front[|front| - 1].ToolResult?
    ensures front == [] ==> Ids(results) <= run
    ensures front != [] ==> Ids(results) <= Declared(front[|front| - 1])
    decreases |items|
  {
    if front == [] {
      assert items == results;
      if results[1..] != [] {
        TrailingRunIsOwned(items[1..], NextRun(run, items[0]), [], results[1..]);
      }
    } else {
      assert items[1..] == front[1..] + results;
      TrailingRunIsOwned(items[1..], NextRun(run, items[0]), front[1..], results);
    }
  }

  lemma TailUnitIsPaired(z: Sizer, body: seq<Item>, budget: nat)
    requires PairedFrom(body, {}) && CutsTextOnly(z)
    ensures PairedFrom(TailUnit(z, body, budget), {})
  {
    var front := TailFront(body);
    var run := body[|front|..];
    TailRunIsRun(body);
    if run == [] {
      assert front == body;
      assert body != [] ==> Skeleton(z.cut(body[|body| - 1], budget)) == Skeleton(body[|body| - 1]);
    } else {
      TrailingRunIsOwned(body, {}, front, run);
      assert run[0].callId in Ids(run);
      var head := front[|front| - 1];
      var per := PerResult(z, [head], |run|, budget);
      TruncatedRunIsPaired(z, run, per, Declared(head));
      PairedBlock(head, TruncatedRun(z, run, per), []);
      assert [head] + TruncatedRun(z, run, per) + [] == [head] + TruncatedRun(z, run, per);
    }
  }

  /** Fitting keeps tool pairing on both paths. */
  lemma FitKeepsPairing(z: Sizer, conversation: seq<Item>, maxTokens: nat)
    requires Paired(conversation) && CutsTextOnly(z)
    ensures Paired(Fit(z, conversation, maxTokens))
  {
    if Total(z, conversation) > maxTokens {
      var h := HeadLength(conversation);
      var head, body := conversation[..h], conversation[h..];
      var budget := Saturating(maxTokens, Total(z, head));
      PairedByScan(conversation);
      if h == 1 {
        assert conversation[1..] == body;
        assert NextRun({}, conversation[0]) == {};
      }
      assert PairedFrom(body, {});
      var start := WholeTurnStart(z, body, budget);
      if start < |body| {
        PairedSuffix(body, {}, start);
      } else {
        TailUnitIsPaired(z, body, budget);
      }
      PairedConcat(head, FitBody(z, body, budget), {});
      PairedByScan(Fit(z, conversation, maxTokens));
    }
  }

  function Last<T>(s: seq<T>): T
    requires s != []
  {
    s[|s| - 1]
  }

  lemma LastOfConcat<T>(a: seq<T>, b: seq<T>)
    requires b != []
    ensures Last(a + b) == Last(b)
  {
  }

  lemma LastOfSuffix<T>(s: seq<T>, i: nat)
    requires i < |s|
    ensures Last(s[i..]) == Last(s)
  {
  }

  lemma {:induction false} TruncatedRunLast(z: Sizer, run: seq<Item>, per: nat)
    requires run != []
    ensures Last(TruncatedRun(z, run, per)) == z.cut(Last(run), per)
  {
    if |run| > 1 {
      TruncatedRunLast(z, run[1..], per);
      LastOfSuffix(run, 1);
      LastOfConcat([z.cut(run[0], per)], TruncatedRun(z, run[1..], per));
    }
  }

  /** `item` as it was, or cut to some number of tokens. */
  ghost predicate IsCutOf(z: Sizer, item: Item, original: Item) {
    item == original || exists n: nat :: item == z.cut(original, n)
  }

  lemma TailUnitKeepsLast(z: Sizer, body: seq<Item>, budget: nat)
    requires body != []
    ensures var r := TailUnit(z, body, budget); r != [] && IsCutOf(z, Last(r), Last(body))
  {
    var front := TailFront(body);
    var run := body[|front|..];
    if run != [] {
      var per := PerResult(z, Owner(front), |run|, budget);
      LastOfSuffix(body, |front|);
      TruncatedRunLast(z, run, per);
      LastOfConcat(Owner(front), TruncatedRun(z, run, per));
    }
  }

  lemma FitBodyKeepsLast(z: Sizer, body: seq<Item>, budget: nat)
    requires body != []
    ensures var r := FitBody(z, body, budget); r != [] && IsCutOf(z, Last(r), Last(body))
    ensures WholeTurnStart(z, body, budget) < |body| ==> Last(FitBody(z, body, budget)) == Last(body)
  {
    var start := WholeTurnStart(z, body, budget);
    if start < |body| {
      LastOfSuffix(body, start);
    } else {
      TailUnitKeepsLast(z, body, budget);
    }
  }

  lemma FitNothing(z: Sizer, budget: nat)
    ensures FitBody(z, [], budget) == []
  {
  }

  lemma CutKeepsSkeleton(z: Sizer, item: Item, original: Item)
    requires IsCutOf(z, item, original) && CutsTextOnly(z)
    ensures Skeleton(item) == Skeleton(original)
  {
  }

  /** The last item is always kept: as it is, or with its text cut to some number of tokens, which
      happens only when no whole turn fits. */
  lemma FitKeepsLast(z: Sizer, conversation: seq<Item>, maxTokens: nat)
    requires conversation != []
    ensures var r := Fit(z, conversation, maxTokens);
      && r != [] && IsCutOf(z, Last(r), Last(conversation))
      && (CutsTextOnly(z) ==> Skeleton(Last(r)) == Skeleton(Last(conversation)))
      && (FitsWholeTurn(z, conversation, maxTokens) ==> Last(r) == Last(conversation))
  {
    if Total(z, conversation) > maxTokens {
      CutConversationKeepsLast(z, conversation, maxTokens);
    }
    if CutsTextOnly(z) {
      CutKeepsSkeleton(z, Last(Fit(z, conversation, maxTokens)), Last(conversation));
    }
  }

  lemma CutConversationKeepsLast(z: Sizer, conversation: seq<Item>, maxTokens: nat)
    requires conversation != [] && Total(z, conversation) > maxTokens
    ensures var r := Fit(z, conversation, maxTokens); r != [] && IsCutOf(z, Last(r), Last(conversation))
    ensures FitsWholeTurn(z, conversation, maxTokens) ==> Last(Fit(z, conversation, maxTokens)) == Last(conversation)
  {
    var h := HeadLength(conversation);
    var head, body := conversation[..h], conversation[h..];
    var budget := Saturating(maxTokens, Total(z, head));
    if body == [] {
      FitNothing(z, budget);
      assert head + [] == head == conversation;
    } else {
      LastOfSuffix(conversation, h);
      FitBodyKeepsLast(z, body, budget);
      LastOfConcat(head, FitBody(z, body, budget));
    }
  }

  /** Everything fits, or at least one whole turn beside the system item. */
  predicate FitsWholeTurn(z: Sizer, conversation: seq<Item>, maxTokens: nat) {
    var h := HeadLength(conversation);
    var head, body := conversation[..h], conversation[h..];
    Total(z, conversation) <= maxTokens || WholeTurnStart(z, body, Saturating(maxTokens, Total(z, head))) < |body|
  }

  /** On the whole-turn path the result is the system item and the longest affordable suffix without
      its leading tool results; it is within budget exactly when the system item is. */
  lemma FitWholeTurns(z: Sizer, conversation: seq<Item>, maxTokens: nat)
    requires Total(z, conversation) > maxTokens
    ensures var h := HeadLength(conversation);
      var head, body := conversation[..h], conversation[h..];
      var budget := Saturating(maxTokens, Total(z, head));
      var k, start := AffordableStart(z, body, budget), WholeTurnStart(z, body, budget);
      start < |body| ==>
        && Fit(z, conversation, maxTokens) == head + body[start..]
        && IsRun(body[k..start]) && !body[start].ToolResult?
        && Total(z, body[k..]) <= budget && (forall j: nat :: j < k ==> Total(z, body[j..]) > budget)
        && (Total(z, Fit(z, conversation, maxTokens)) <= maxTokens <==> Total(z, head) <= maxTokens)
  {
    var h := HeadLength(conversation);
    var head, body := conversation[..h], conversation[h..];
    var budget := Saturating(maxTokens, Total(z, head));
    var k, start := AffordableStart(z, body, budget), WholeTurnStart(z, body, budget);
    assert body[k..start] == body[k..][..RunLength(body[k..])];
    AffordableStartIsLongest(z, body, budget);
    SuffixesShrink(z, body, k, start);
    TotalConcat(z, head, body[start..]);
  }

  // ---------- What the recovered unit is ----------

  /** `n` is the whole number of tokens each of `count` results can have of `room`, and at least one. */
  predicate IsShare(n: nat, count: nat, room: nat) {
    if count <= room then n * count <= room < (n + 1) * count else n == 1
  }

  lemma ShareIs(room: nat, count: nat)
    requires count > 0
    ensures IsShare(if room / count == 0 then 1 else room / count, count, room)
  {
    var q := room / count;
    assert room == q * count + room % count;
    assert (q + 1) * count == q * count + count;
  }

  /** The cost of the item in front of the trailing results, if it is kept as their owner. */
  function OwnerCost(z: Sizer, front: seq<Item>): nat {
    if front != [] && Last(front).Assistant? && Last(front).calls != [] then z.cost(Last(front)) else 0
  }

  lemma {:induction false} TruncatedRunAt(z: Sizer, run: seq<Item>, per: nat, i: nat)
    requires i < |run|
    ensures TruncatedRun(z, run, per)[i] == z.cut(run[i], per)
  {
    if i > 0 {
      TruncatedRunAt(z, run[1..], per, i - 1);
    }
  }

  lemma {:induction false} TailFrontIs(front: seq<Item>, run: seq<Item>)
    requires IsRun(run) && (front != [] ==> !Last(front).ToolResult?)
    ensures TailFront(front + run) == front
  {
    if run == [] {
      assert front + run == front;
    } else {
      var n := |run| - 1;
      assert (front + run)[..|front + run| - 1] == front + run[..n];
      TailFrontIs(front, run[..n]);
    }
  }

  /** A list that ends in results becomes their owner, if an assistant with calls stands in front of
      them, and every one of them cut to the same number of tokens: the most that fits the budget
      beside the owner, and at least one. */
  lemma TailUnitIs(z: Sizer, front: seq<Item>, run: seq<Item>, budget: nat) returns (n: nat)
    requires run != [] && IsRun(run) && (front != [] ==> !Last(front).ToolResult?)
    ensures IsShare(n, |run|, if budget <= OwnerCost(z, front) then 0 else budget - OwnerCost(z, front))
    ensures var unit := TailUnit(z, front + run, budget);
      var h := if front != [] && Last(front).Assistant? && Last(front).calls != [] then 1 else 0;
      && |unit| == h + |run| && (h == 1 ==> unit[0] == Last(front))
      && forall i :: 0 <= i < |run| ==> unit[h + i] == z.cut(run[i], n)
  {
    var owner := Owner(front);
    OwnerIs(z, front);
    n := PerResult(z, owner, |run|, budget);
    ShareIs(Saturating(budget, Total(z, owner)), |run|);
    TailUnitOf(z, front, run, budget);
    forall i | 0 <= i < |run| ensures (owner + TruncatedRun(z, run, n))[|owner| + i] == z.cut(run[i], n) {
      TruncatedRunAt(z, run, n, i);
    }
  }

  lemma OwnerIs(z: Sizer, front: seq<Item>)
    ensures Total(z, Owner(front)) == OwnerCost(z, front)
  {
    if Owner(front) != [] {
      assert Owner(front)[1..] == [];
    }
  }

  lemma TailUnitOf(z: Sizer, front: seq<Item>, run: seq<Item>, budget: nat)
    requires run != [] && IsRun(run) && (front != [] ==> !Last(front).ToolResult?)
    ensures TailUnit(z, front + run, budget)
         == Owner(front) + TruncatedRun(z, run, PerResult(z, Owner(front), |run|, budget))
  {
    TailFrontIs(front, run);
    assert (front + run)[|front|..] == run;
  }

  /** Without trailing results the unit is the last item, cut to the whole budget. */
  lemma LoneUnitIs(z: Sizer, body: seq<Item>, budget: nat)
    requires body != [] && !Last(body).ToolResult?
    ensures TailUnit(z, body, budget) == [z.cut(Last(body), budget)]
  {
  }

  /** A leading system item stays in front, whatever the budget. */
  lemma FitKeepsSystem(z: Sizer, conversation: seq<Item>, maxTokens: nat)
    requires conversation != [] && conversation[0].System?
    ensures var r := Fit(z, conversation, maxTokens); r != [] && r[0] == conversation[0]
  {
  }

  /** Costs add up item by item. */
  lemma TotalIsSum(z: Sizer, a: seq<Item>, item: Item, b: seq<Item>)
    ensures Total(z, []) == 0 && Total(z, a + [item] + b) == Total(z, a) + z.cost(item) + Total(z, b)
  {
    TotalConcat(z, a + [item], b);
    TotalConcat(z, a, [item]);
    assert [item][1..] == [];
  }

  // ---------- The total on the truncated path ----------

  /** Cut items cost at most what they were cut to, or exactly that. */
  ghost predicate CutsToSize(z: Sizer) { forall item, n: nat :: z.cost(z.cut(item, n)) <= n }

  ghost predicate CutsExactly(z: Sizer) { forall item, n: nat :: z.cost(z.cut(item, n)) == n }

  lemma {:induction false} TruncatedRunTotal(z: Sizer, run: seq<Item>, per: nat)
    ensures CutsToSize(z) ==> Total(z, TruncatedRun(z, run, per)) <= |run| * per
    ensures CutsExactly(z) ==> Total(z, TruncatedRun(z, run, per)) == |run| * per
  {
    if run != [] {
      TruncatedRunTotal(z, run[1..], per);
      TotalConcat(z, [z.cut(run[0], per)], TruncatedRun(z, run[1..], per));
      assert [z.cut(run[0], per)][1..] == [];
      assert |run| * per == per + |run[1..]| * per;
    }
  }

  lemma ShareFits(room: nat, count: nat)
    requires count > 0
    ensures var per := if room / count == 0 then 1 else room / count;
      if count <= room then count * per <= room else count * per == count
  {
    if count <= room {
      assert room / count >= 1 && count * (room / count) <= room;
    }
  }

  /** The results that end a list, and what the recovered unit spends beside them. */
  function TailRun(body: seq<Item>): seq<Item> { body[|TailFront(body)|..] }

  function UnitNeeds(z: Sizer, body: seq<Item>): nat { Total(z, Owner(TailFront(body))) + |TailRun(body)| }

  /** The recovered unit stays within its budget if every result can have a token beside the owner; for
      a sizer that cuts exactly, only then. */
  lemma TailUnitTotal(z: Sizer, body: seq<Item>, budget: nat)
    requires CutsToSize(z)
    ensures TailRun(body) == [] || UnitNeeds(z, body) <= budget ==> Total(z, TailUnit(z, body, budget)) <= budget
    ensures TailRun(body) != [] && UnitNeeds(z, body) > budget
      ==> Total(z, TailUnit(z, body, budget)) <= UnitNeeds(z, body)
    ensures CutsExactly(z) && TailRun(body) != [] ==>
      (Total(z, TailUnit(z, body, budget)) <= budget <==> UnitNeeds(z, body) <= budget)
  {
    var run, owner := TailRun(body), Owner(TailFront(body));
    if run == [] {
      if body != [] {
        assert [z.cut(body[|body| - 1], budget)][1..] == [];
      }
    } else {
      var per := PerResult(z, owner, |run|, budget);
      ShareFits(Saturating(budget, Total(z, owner)), |run|);
      TruncatedRunTotal(z, run, per);
      TotalConcat(z, owner, TruncatedRun(z, run, per));
    }
  }

  /** So a shrunk conversation can exceed its budget only by its system item, or by a trailing run of
      results that leaves less than a token for each. */
  lemma FitTotal(z: Sizer, conversation: seq<Item>, maxTokens: nat)
    requires CutsToSize(z) && Total(z, conversation[..HeadLength(conversation)]) <= maxTokens
    ensures Total(z, conversation) <= maxTokens ==> Fit(z, conversation, maxTokens) == conversation
    ensures var h := HeadLength(conversation);
      var head, body := conversation[..h], conversation[h..];
      || Total(z, Fit(z, conversation, maxTokens)) <= maxTokens
      || (&& !FitsWholeTurn(z, conversation, maxTokens) && TailRun(body) != []
          && maxTokens < Total(z, head) + UnitNeeds(z, body))
  {
    var h := HeadLength(conversation);
    var head, body := conversation[..h], conversation[h..];
    var budget := Saturating(maxTokens, Total(z, head));
    if Total(z, conversation) > maxTokens {
      if WholeTurnStart(z, body, budget) < |body| {
        FitWholeTurns(z, conversation, maxTokens);
      } else {
        TailUnitTotal(z, body, budget);
        TotalConcat(z, head, TailUnit(z, body, budget));
      }
    }
  }
}
