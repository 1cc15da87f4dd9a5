/** `repair_history`: drop duplicate results, strip displaced ones, backfill unanswered calls. */
module HistoryRepair {
  import opened Text
  import opened Conversation
  import opened ToolPairs

  // ---------- Runs of tool results ----------

  predicate IsRun(items: seq<Item>) {
    forall i :: 0 <= i < |items| ==> items[i].ToolResult?
  }

  /** Length of the run of tool results that opens `items`. */
  function RunLength(items: seq<Item>): (n: nat)
    ensures n <= |items| && IsRun(items[..n])
    ensures n < |items| ==> !items[n].ToolResult?
  {
    if items != [] && items[0].ToolResult? then 1 + RunLength(items[1..]) else 0
  }

  predicate StartsBlock(items: seq<Item>) {
    items == [] || !items[0].ToolResult?
  }

  lemma {:induction false} RunLengthOf(run: seq<Item>, rest: seq<Item>)
    requires IsRun(run) && StartsBlock(rest)
    ensures RunLength(run + rest) == |run|
    ensures (run + rest)[..|run|] == run && (run + rest)[|run|..] == rest
  {
    if run == [] {
      assert run + rest == rest;
    } else {
      assert (run + rest)[1..] == run[1..] + rest;
      RunLengthOf(run[1..], rest);
    }
  }

  function Ids(run: seq<Item>): set<string>
    requires IsRun(run)
  {
    if run == [] then {} else {run[0].callId} + Ids(run[1..])
  }

  lemma {:induction false} IdsConcat(a: seq<Item>, b: seq<Item>)
    requires IsRun(a) && IsRun(b)
    ensures Ids(a + b) == Ids(a) + Ids(b)
  {
    if a == [] {
      assert a + b == b;
    } else {
      assert (a + b)[1..] == a[1..] + b;
      IdsConcat(a[1..], b);
    }
  }

  predicate HasCalls(item: Item) {
    item.Assistant? && item.calls != []
  }

  // ---------- The three passes ----------

  /** The last result per id, in order. */
  function LastPerId(run: seq<Item>): (r: seq<Item>)
    requires IsRun(run)
    ensures IsRun(r) && Ids(r) == Ids(run)
  {
    if run == [] then []
    else if run[0].callId in Ids(run[1..]) then LastPerId(run[1..])
    else
      assert ([run[0]] + LastPerId(run[1..]))[1..] == LastPerId(run[1..]);
      [run[0]] + LastPerId(run[1..])
  }

  function OnlyDeclared(run: seq<Item>, ids: set<string>): (r: seq<Item>)
    requires IsRun(run)
    ensures IsRun(r) && Ids(r) == Ids(run) * ids
  {
    if run == [] then []
    else if run[0].callId in ids then
      assert ([run[0]] + OnlyDeclared(run[1..], ids))[1..] == OnlyDeclared(run[1..], ids);
      [run[0]] + OnlyDeclared(run[1..], ids)
    else OnlyDeclared(run[1..], ids)
  }

  function DanglingResult(call: ToolCall): Item {
    ToolResult(call.id,
      "Tool execution was halted by the harness (history_repair); the tool `" + call.name + "` was not executed.", [])
  }

  /** One synthetic result per unanswered call, in call order. */
  function Backfill(calls: seq<ToolCall>, answered: set<string>): (r: seq<Item>)
    ensures IsRun(r) && Ids(r) == CallIds(calls) - answered
  {
    if calls == [] then []
    else
      var rest := Backfill(calls[1..], answered);
      if calls[0].id in answered then rest
      else
        assert ([DanglingResult(calls[0])] + rest)[1..] == rest;
        [DanglingResult(calls[0])] + rest
  }

  function Deduped(items: seq<Item>): seq<Item>
    decreases |items|
  {
    if items == [] then []
    else if HasCalls(items[0]) then
      var n := RunLength(items[1..]);
      [items[0]] + LastPerId(items[1..][..n]) + Deduped(items[1..][n..])
    else [items[0]] + Deduped(items[1..])
  }

  function Filled(head: Item, run: seq<Item>): (r: seq<Item>)
    requires IsRun(run)
    ensures IsRun(r)
  {
    if HasCalls(head) then run + Backfill(head.calls, Ids(run)) else run
  }

  function Backfilled(items: seq<Item>): seq<Item>
    decreases |items|
  {
    if items == [] then []
    else if HasCalls(items[0]) then
      var n := RunLength(items[1..]);
      [items[0]] + Filled(items[0], items[1..][..n]) + Backfilled(items[1..][n..])
    else [items[0]] + Backfilled(items[1..])
  }

  function Repaired(items: seq<Item>): seq<Item> {
    Backfilled(Stripped(Deduped(items), {}))
  }

  // ---------- Reference: what one block becomes ----------

  /** The declared results of a run, then synthetic ones for the calls they leave unanswered. */
  function FinishedRun(head: Item, run: seq<Item>): (r: seq<Item>)
    requires IsRun(run)
    ensures IsRun(r)
  {
    Filled(head, OnlyDeclared(run, Declared(head)))
  }

  /** The run an item keeps: the last declared result per id, then synthetic ones. */
  function RepairedRun(head: Item, run: seq<Item>): (r: seq<Item>)
    requires IsRun(run)
    ensures IsRun(r)
  {
    FinishedRun(head, if HasCalls(head) then LastPerId(run) else run)
  }

  function RepairedByBlock(items: seq<Item>): (r: seq<Item>)
    ensures StartsBlock(r)
    decreases |items|
  {
    if items == [] then []
    else if items[0].ToolResult? then RepairedByBlock(items[1..])
    else
      var n := RunLength(items[1..]);
      [items[0]] + RepairedRun(items[0], items[1..][..n]) + RepairedByBlock(items[1..][n..])
  }

  lemma DedupedStarts(items: seq<Item>)
    requires StartsBlock(items)
    ensures StartsBlock(Deduped(items))
  {
  }

  lemma StrippedStarts(items: seq<Item>)
    requires StartsBlock(items)
    ensures StartsBlock(Stripped(items, {}))
  {
  }

  /** A run after an item without calls is left alone by the first pass. */
  lemma {:induction false} DedupedRun(run: seq<Item>, rest: seq<Item>)
    requires IsRun(run)
    ensures Deduped(run + rest) == run + Deduped(rest)
  {
    if run == [] {
      assert run + rest == rest;
    } else {
      assert (run + rest)[1..] == run[1..] + rest;
      DedupedRun(run[1..], rest);
      assert run == [run[0]] + run[1..];
      Assoc([run[0]], run[1..], Deduped(rest));
    }
  }

  lemma {:induction false} StrippedRun(run: seq<Item>, rest: seq<Item>, ids: set<string>)
    requires IsRun(run) && StartsBlock(rest)
    ensures Stripped(run + rest, ids) == OnlyDeclared(run, ids) + Stripped(rest, {})
  {
    if run == [] {
      assert run + rest == rest;
      assert rest != [] ==> NextRun(ids, rest[0]) == NextRun({}, rest[0]);
    } else {
      assert (run + rest)[1..] == run[1..] + rest;
      StrippedRun(run[1..], rest, ids);
    }
  }

  lemma NothingDeclared(run: seq<Item>)
    requires IsRun(run)
    ensures OnlyDeclared(run, {}) == []
  {
  }

  lemma BackfilledBlock(head: Item, run: seq<Item>, rest: seq<Item>)
    requires IsRun(run) && StartsBlock(rest) && !head.ToolResult? && (HasCalls(head) || run == [])
    ensures Backfilled([head] + run + rest) == [head] + Filled(head, run) + Backfilled(rest)
  {
    var items := [head] + run + rest;
    assert items[1..] == run + rest;
    RunLengthOf(run, rest);
  }

  lemma StrippedBlock(head: Item, run: seq<Item>, rest: seq<Item>)
    requires IsRun(run) && StartsBlock(rest) && !head.ToolResult?
    ensures Stripped([head] + run + rest, {}) == [head] + OnlyDeclared(run, Declared(head)) + Stripped(rest, {})
  {
    var items := [head] + run + rest;
    assert items[1..] == run + rest;
    StrippedRun(run, rest, Declared(head));
  }

  lemma DedupedBlock(head: Item, run: seq<Item>, rest: seq<Item>)
    requires IsRun(run) && StartsBlock(rest) && !head.ToolResult?
    ensures Deduped([head] + run + rest) == [head] + (if HasCalls(head) then LastPerId(run) else run) + Deduped(rest)
  {
    var items := [head] + run + rest;
    assert items[1..] == run + rest;
    RunLengthOf(run, rest);
    DedupedRun(run, rest);
  }

  /** Stripping and backfilling one block whose duplicates are gone. */
  lemma FinishedBlock(head: Item, run: seq<Item>, rest: seq<Item>)
    requires IsRun(run) && StartsBlock(rest) && !head.ToolResult?
    ensures Backfilled(Stripped([head] + run + rest, {})) ==
      [head] + FinishedRun(head, run) + Backfilled(Stripped(rest, {}))
  {
    var kept := OnlyDeclared(run, Declared(head));
    StrippedBlock(head, run, rest);
    StrippedStarts(rest);
    if !HasCalls(head) {
      assert Declared(head) == {};
      NothingDeclared(run);
    }
    BackfilledBlock(head, kept, Stripped(rest, {}));
  }

  lemma RepairedBlock(head: Item, run: seq<Item>, rest: seq<Item>)
    requires IsRun(run) && StartsBlock(rest) && !head.ToolResult?
    ensures Repaired([head] + run + rest) == [head] + RepairedRun(head, run) + Repaired(rest)
  {
    DedupedBlock(head, run, rest);
    DedupedStarts(rest);
    FinishedBlock(head, if HasCalls(head) then LastPerId(run) else run, Deduped(rest));
  }

  lemma RepairedOrphan(orphan: Item, rest: seq<Item>)
    requires orphan.ToolResult?
    ensures Repaired([orphan] + rest) == Repaired(rest)
  {
    var items := [orphan] + rest;
    assert items[1..] == rest;
    assert Deduped(items)[1..] == Deduped(rest);
    assert Stripped(Deduped(items), {}) == Stripped(Deduped(rest), {});
  }

  /** An item, the run directly after it, and what follows. */
  lemma SplitBlock(items: seq<Item>) returns (head: Item, run: seq<Item>, rest: seq<Item>)
    requires items != [] && !items[0].ToolResult?
    ensures head == items[0] && items == [head] + run + rest
    ensures IsRun(run) && StartsBlock(rest) && |rest| < |items|
    ensures run == items[1..][..RunLength(items[1..])] && rest == items[1..][RunLength(items[1..])..]
  {
    var n := RunLength(items[1..]);
    head, run, rest := items[0], items[1..][..n], items[1..][n..];
  }

  /** The three list passes together do exactly what the block-by-block reference does. */
  lemma {:induction false} RepairIsByBlock(items: seq<Item>)
    ensures Repaired(items) == RepairedByBlock(items)
    decreases |items|
  {
    if items == [] {
    } else if items[0].ToolResult? {
      RepairIsByBlock(items[1..]);
      assert items == [items[0]] + items[1..];
      RepairedOrphan(items[0], items[1..]);
    } else {
      var head, run, rest := SplitBlock(items);
      RepairIsByBlock(rest);
      RepairedBlock(head, run, rest);
    }
  }

  // ---------- What repairing a repaired run does ----------

  predicate Distinct(run: seq<Item>)
    requires IsRun(run)
  {
    run == [] || (run[0].callId !in Ids(run[1..]) && Distinct(run[1..]))
  }

  lemma {:induction false} LastPerIdIsDistinct(run: seq<Item>)
    requires IsRun(run)
    ensures Distinct(LastPerId(run)) && |LastPerId(run)| <= |run|
    ensures |LastPerId(run)| == |run| ==> LastPerId(run) == run
    ensures LastPerId(run) == run <==> Distinct(run)
  {
    if run != [] {
      LastPerIdIsDistinct(run[1..]);
      var rest := LastPerId(run[1..]);
      if run[0].callId !in Ids(run[1..]) {
        assert LastPerId(run) == [run[0]] + rest;
        assert LastPerId(run)[1..] == rest;
        assert LastPerId(run) == run ==> rest == run[1..];
      }
    }
  }

  lemma {:induction false} LastPerIdConcat(a: seq<Item>, b: seq<Item>)
    requires IsRun(a) && IsRun(b) && Distinct(a) && Ids(a) !! Ids(b)
    ensures LastPerId(a + b) == a + LastPerId(b)
  {
    if a == [] {
      assert a + b == b;
    } else {
      assert (a + b)[1..] == a[1..] + b;
      IdsConcat(a[1..], b);
      LastPerIdConcat(a[1..], b);
      assert a == [a[0]] + a[1..];
      Assoc([a[0]], a[1..], LastPerId(b));
    }
  }

  lemma {:induction false} OnlyDeclaredKeeps(run: seq<Item>, ids: set<string>)
    requires IsRun(run)
    ensures Distinct(run) ==> Distinct(OnlyDeclared(run, ids))
    ensures Ids(run) <= ids ==> OnlyDeclared(run, ids) == run
  {
    if run != [] {
      OnlyDeclaredKeeps(run[1..], ids);
      if run[0].callId in ids {
        assert OnlyDeclared(run, ids)[1..] == OnlyDeclared(run[1..], ids);
      }
    }
  }

  /** The same unanswered id is asked for at most once. */
  ghost predicate AsksOnce(calls: seq<ToolCall>, answered: set<string>) {
    forall a: nat, b: nat :: a < b < |calls| && calls[a].id == calls[b].id ==> calls[a].id in answered
  }

  lemma AsksOnceStep(calls: seq<ToolCall>, answered: set<string>)
    requires calls != []
    ensures AsksOnce(calls, answered) <==>
      (calls[0].id in answered || calls[0].id !in CallIds(calls[1..])) && AsksOnce(calls[1..], answered)
  {
    var rest := calls[1..];
    CallIdsHolds(rest, calls[0].id);
    if AsksOnce(calls, answered) {
      forall a: nat, b: nat | a < b < |rest| && rest[a].id == rest[b].id ensures rest[a].id in answered {
        assert rest[a] == calls[a + 1] && rest[b] == calls[b + 1];
      }
      if j :| 0 <= j < |rest| && rest[j].id == calls[0].id {
        assert calls[j + 1] == rest[j];
      }
    }
    if (calls[0].id in answered || calls[0].id !in CallIds(rest)) && AsksOnce(rest, answered) {
      forall a: nat, b: nat | a < b < |calls| && calls[a].id == calls[b].id ensures calls[a].id in answered {
        assert rest[b - 1] == calls[b];
        assert a > 0 ==> rest[a - 1] == calls[a];
      }
    }
  }

  lemma {:induction false} BackfillDistinct(calls: seq<ToolCall>, answered: set<string>)
    ensures Distinct(Backfill(calls, answered)) <==> AsksOnce(calls, answered)
  {
    if calls != [] {
      AsksOnceStep(calls, answered);
      BackfillDistinct(calls[1..], answered);
      if calls[0].id !in answered {
        assert Backfill(calls, answered)[1..] == Backfill(calls[1..], answered);
      }
    }
  }

  /** A result counts as an answer only for the ids its assistant declares. */
  lemma AnswersAreDeclared(calls: seq<ToolCall>, answered: set<string>)
    ensures AsksOnce(calls, answered * CallIds(calls)) <==> AsksOnce(calls, answered)
  {
    forall a: nat | a < |calls| ensures calls[a].id in CallIds(calls) {
      CallIdsHolds(calls, calls[a].id);
    }
  }

  /** Repairing a run: real results first, then synthetic ones for the unanswered calls. */
  lemma RepairedRunParts(head: Item, run: seq<Item>) returns (kept: seq<Item>, added: seq<Item>)
    requires HasCalls(head) && IsRun(run)
    ensures IsRun(kept) && IsRun(added) && RepairedRun(head, run) == kept + added
    ensures Distinct(kept) && Ids(kept) == Ids(run) * CallIds(head.calls)
    ensures added == Backfill(head.calls, Ids(kept)) && Ids(added) == CallIds(head.calls) - Ids(kept)
  {
    kept := OnlyDeclared(LastPerId(run), Declared(head));
    added := Backfill(head.calls, Ids(kept));
    LastPerIdIsDistinct(run);
    OnlyDeclaredKeeps(LastPerId(run), Declared(head));
  }

  lemma RepairedRunWithoutCalls(head: Item, run: seq<Item>)
    requires !HasCalls(head) && IsRun(run)
    ensures RepairedRun(head, run) == [] && Declared(head) == {}
  {
    NothingDeclared(run);
  }

  /** Repairing a repaired run only drops repeated synthetic results; a third repair drops nothing. */
  lemma RepairedRunTwice(head: Item, run: seq<Item>)
    requires IsRun(run)
    ensures var once := RepairedRun(head, run);
      var twice := RepairedRun(head, once);
      && (twice == once <==> (head.Assistant? ==> AsksOnce(head.calls, Ids(run))))
      && RepairedRun(head, twice) == twice
  {
    if HasCalls(head) {
      var kept, added := RepairedRunParts(head, run);
      var fewer := LastPerId(added);
      FilledAgain(head, kept, added);
      FilledAgain(head, kept, fewer);
      LastPerIdIsDistinct(added);
      LastPerIdIsDistinct(fewer);
      BackfillDistinct(head.calls, Ids(kept));
      AnswersAreDeclared(head.calls, Ids(run));
      assert kept + fewer == kept + added ==> fewer == added by {
        assert (kept + fewer)[|kept|..] == fewer && (kept + added)[|kept|..] == added;
      }
    } else {
      RepairedRunWithoutCalls(head, run);
      RepairedRunWithoutCalls(head, []);
    }
  }

  /** A repaired run answers every call, and nothing else. */
  lemma RepairedRunAnswers(head: Item, run: seq<Item>)
    requires IsRun(run)
    ensures Ids(RepairedRun(head, run)) == Declared(head)
    ensures Distinct(RepairedRun(head, run)) <==> (head.Assistant? ==> AsksOnce(head.calls, Ids(run)))
  {
    if HasCalls(head) {
      var kept, added := RepairedRunParts(head, run);
      IdsConcat(kept, added);
      DistinctConcat(kept, added);
      BackfillDistinct(head.calls, Ids(kept));
      AnswersAreDeclared(head.calls, Ids(run));
    } else {
      RepairedRunWithoutCalls(head, run);
    }
  }

  lemma {:induction false} DistinctConcat(a: seq<Item>, b: seq<Item>)
    requires IsRun(a) && IsRun(b) && Distinct(a) && Ids(a) !! Ids(b)
    ensures Distinct(a + b) <==> Distinct(b)
  {
    if a == [] {
      assert a + b == b;
    } else {
      assert (a + b)[1..] == a[1..] + b;
      IdsConcat(a[1..], b);
      DistinctConcat(a[1..], b);
    }
  }

  lemma FilledAgain(head: Item, kept: seq<Item>, added: seq<Item>)
    requires HasCalls(head) && IsRun(kept) && IsRun(added) && Distinct(kept)
    requires Ids(kept) <= Declared(head) && Ids(added) == CallIds(head.calls) - Ids(kept)
    ensures RepairedRun(head, kept + added) == kept + LastPerId(added)
    ensures Ids(kept + added) == CallIds(head.calls)
  {
    LastPerIdConcat(kept, added);
    IdsConcat(kept, added);
    IdsConcat(kept, LastPerId(added));
    OnlyDeclaredKeeps(kept + LastPerId(added), Declared(head));
    NothingToBackfill(head.calls, Declared(head));
  }

  lemma {:induction false} NothingToBackfill(calls: seq<ToolCall>, answered: set<string>)
    requires CallIds(calls) <= answered
    ensures Backfill(calls, answered) == []
  {
    if calls != [] {
      NothingToBackfill(calls[1..], answered);
    }
  }

  // ---------- Whole histories ----------

  /** The run of tool results directly after position `i`. */
  function RunAfter(items: seq<Item>, i: nat): (run: seq<Item>)
    requires i < |items|
    ensures IsRun(run)
  {
    items[i + 1..][..RunLength(items[i + 1..])]
  }

  /** No assistant item leaves the same call id unanswered twice. */
  ghost predicate NoRepeatedDangling(items: seq<Item>) {
    forall i: nat :: i < |items| && items[i].Assistant? ==> AsksOnce(items[i].calls, Ids(RunAfter(items, i)))
  }

  /** Every call is answered in the run directly after its assistant. */
  ghost predicate AllAnswered(items: seq<Item>) {
    forall i: nat :: i < |items| && items[i].Assistant? ==> CallIds(items[i].calls) <= Ids(RunAfter(items, i))
  }

  /** ... and at most once. */
  ghost predicate AnsweredOnce(items: seq<Item>) {
    forall i: nat :: i < |items| && items[i].Assistant? ==> Distinct(RunAfter(items, i))
  }

  lemma RunAfterInBlock(head: Item, run: seq<Item>, rest: seq<Item>, i: nat)
    requires IsRun(run) && StartsBlock(rest) && !head.ToolResult?
    requires i < 1 + |run| + |rest| && !([head] + run + rest)[i].ToolResult?
    ensures i == 0 ==> RunAfter([head] + run + rest, i) == run
    ensures i > 0 ==> i > |run| && ([head] + run + rest)[i] == rest[i - 1 - |run|]
    ensures i > 0 ==> RunAfter([head] + run + rest, i) == RunAfter(rest, i - 1 - |run|)
  {
    var items := [head] + run + rest;
    if i == 0 {
      assert items[1..] == run + rest;
      RunLengthOf(run, rest);
    } else {
      assert forall k :: 1 <= k <= |run| ==> items[k] == run[k - 1];
      assert items[i + 1..] == rest[i - |run|..];
    }
  }

  /** Positional properties of a history, one block at a time. */
  lemma BlockProperties(head: Item, run: seq<Item>, rest: seq<Item>)
    requires IsRun(run) && StartsBlock(rest) && !head.ToolResult?
    ensures var items := [head] + run + rest;
      && (NoRepeatedDangling(items)
        <==> (head.Assistant? ==> AsksOnce(head.calls, Ids(run))) && NoRepeatedDangling(rest))
      && ((head.Assistant? ==> CallIds(head.calls) <= Ids(run)) && AllAnswered(rest) ==> AllAnswered(items))
      && ((head.Assistant? ==> Distinct(run)) && AnsweredOnce(rest) ==> AnsweredOnce(items))
  {
    var items := [head] + run + rest;
    assert items[0] == head;
    RunAfterInBlock(head, run, rest, 0);
    forall i: nat | 0 < i < |items| && !items[i].ToolResult?
      ensures i > |run| && items[i] == rest[i - 1 - |run|] && RunAfter(items, i) == RunAfter(rest, i - 1 - |run|) {
      RunAfterInBlock(head, run, rest, i);
    }
    forall k: nat | k < |rest| && rest[k].Assistant?
      ensures items[k + 1 + |run|] == rest[k] && RunAfter(items, k + 1 + |run|) == RunAfter(rest, k) {
      RunAfterInBlock(head, run, rest, k + 1 + |run|);
    }
  }

  lemma SameBlocks(head: Item, run: seq<Item>, rest: seq<Item>, run': seq<Item>, rest': seq<Item>)
    requires IsRun(run) && StartsBlock(rest) && IsRun(run') && StartsBlock(rest')
    ensures [head] + run + rest == [head] + run' + rest' <==> run == run' && rest == rest'
  {
    RunLengthOf(run, rest);
    RunLengthOf(run', rest');
    assert ([head] + run + rest)[1..] == run + rest;
    assert ([head] + run' + rest')[1..] == run' + rest';
  }

  lemma ByBlockStep(head: Item, run: seq<Item>, rest: seq<Item>)
    requires IsRun(run) && StartsBlock(rest) && !head.ToolResult?
    ensures RepairedByBlock([head] + run + rest) == [head] + RepairedRun(head, run) + RepairedByBlock(rest)
  {
    var items := [head] + run + rest;
    assert items[1..] == run + rest;
    RunLengthOf(run, rest);
  }

  lemma {:induction false} ByBlockTwice(items: seq<Item>)
    ensures RepairedByBlock(RepairedByBlock(items)) == RepairedByBlock(items) <==> NoRepeatedDangling(items)
    decreases |items|
  {
    if items == [] {
    } else if items[0].ToolResult? {
      ByBlockTwice(items[1..]);
      OrphanKeepsDangling(items);
    } else {
      var head, run, rest := SplitBlock(items);
      ByBlockTwice(rest);
      BlockProperties(head, run, rest);
      RepairedRunTwice(head, run);
      var once, tail := RepairedRun(head, run), RepairedByBlock(rest);
      ByBlockStep(head, once, tail);
      SameBlocks(head, RepairedRun(head, once), RepairedByBlock(tail), once, tail);
    }
  }

  lemma OrphanKeepsDangling(items: seq<Item>)
    requires items != [] && items[0].ToolResult?
    ensures NoRepeatedDangling(items) <==> NoRepeatedDangling(items[1..])
  {
    forall k: nat | k < |items| - 1
      ensures items[k + 1] == items[1..][k] && RunAfter(items, k + 1) == RunAfter(items[1..], k) {
      assert items[k + 2..] == items[1..][k + 1..];
    }
    if NoRepeatedDangling(items) {
      forall k: nat | k < |items| - 1 && items[1..][k].Assistant?
        ensures AsksOnce(items[1..][k].calls, Ids(RunAfter(items[1..], k))) {
        assert items[k + 1].Assistant?;
      }
    }
    if NoRepeatedDangling(items[1..]) {
      forall i: nat | i < |items| && items[i].Assistant?
        ensures AsksOnce(items[i].calls, Ids(RunAfter(items, i))) {
        assert items[1..][i - 1].Assistant?;
      }
    }
  }

  /** `repair_history` documents itself as idempotent. It is so exactly when no assistant item
      leaves the same call id unanswered twice. */
  lemma RepairIdempotentIff(items: seq<Item>)
    ensures Repaired(Repaired(items)) == Repaired(items) <==> NoRepeatedDangling(items)
  {
    RepairIsByBlock(items);
    RepairIsByBlock(Repaired(items));
    ByBlockTwice(items);
  }

  /** The failing input: one assistant item declaring the id "a" twice. */
  lemma RepairIsNotIdempotent()
    ensures exists items :: Repaired(Repaired(items)) != Repaired(items)
  {
    var call := ToolCall("a", "read_file", "{}");
    var items := [Assistant("", [call, call], ModelMeta(None, None, None))];
    assert items[0].calls[0].id == items[0].calls[1].id;
    assert RunAfter(items, 0) == [];
    assert !AsksOnce(items[0].calls, Ids(RunAfter(items, 0)));
    assert !NoRepeatedDangling(items);
    RepairIdempotentIff(items);
  }

  lemma {:induction false} ByBlockThrice(items: seq<Item>)
    ensures var twice := RepairedByBlock(RepairedByBlock(items)); RepairedByBlock(twice) == twice
    decreases |items|
  {
    if items == [] {
    } else if items[0].ToolResult? {
      ByBlockThrice(items[1..]);
    } else {
      var head, run, rest := SplitBlock(items);
      ByBlockThrice(rest);
      RepairedRunTwice(head, run);
      var once, tail := RepairedRun(head, run), RepairedByBlock(rest);
      ByBlockStep(head, once, tail);
      ByBlockStep(head, RepairedRun(head, once), RepairedByBlock(tail));
    }
  }

  /** Whatever the history, a second repair reaches a fixed point. */
  lemma RepairConverges(items: seq<Item>)
    ensures var twice := Repaired(Repaired(items)); Repaired(twice) == twice
  {
    RepairIsByBlock(items);
    RepairIsByBlock(Repaired(items));
    RepairIsByBlock(Repaired(Repaired(items)));
    ByBlockThrice(items);
  }

  function NonResults(items: seq<Item>): seq<Item> {
    if items == [] then []
    else if items[0].ToolResult? then NonResults(items[1..])
    else [items[0]] + NonResults(items[1..])
  }

  lemma {:induction false} NonResultsSkipsRun(run: seq<Item>, rest: seq<Item>)
    requires IsRun(run)
    ensures NonResults(run + rest) == NonResults(rest)
  {
    if run == [] {
      assert run + rest == rest;
    } else {
      assert (run + rest)[1..] == run[1..] + rest;
      NonResultsSkipsRun(run[1..], rest);
    }
  }

  lemma NonResultsOfBlock(head: Item, run: seq<Item>, rest: seq<Item>)
    requires IsRun(run) && !head.ToolResult?
    ensures NonResults([head] + run + rest) == [head] + NonResults(rest)
  {
    assert ([head] + run + rest)[1..] == run + rest;
    NonResultsSkipsRun(run, rest);
  }

  lemma {:induction false} RunIsPaired(run: seq<Item>, rest: seq<Item>, ids: set<string>)
    requires IsRun(run) && Ids(run) <= ids && StartsBlock(rest) && PairedFrom(rest, {})
    ensures PairedFrom(run + rest, ids)
  {
    if run == [] {
      assert run + rest == rest;
      PairedMonotone(rest, {}, ids);
    } else {
      assert (run + rest)[1..] == run[1..] + rest;
      RunIsPaired(run[1..], rest, ids);
    }
  }

  lemma {:induction false} ByBlockAnswers(items: seq<Item>)
    ensures AllAnswered(RepairedByBlock(items))
    ensures NoRepeatedDangling(items) ==> AnsweredOnce(RepairedByBlock(items))
    decreases |items|
  {
    if items == [] {
    } else if items[0].ToolResult? {
      ByBlockAnswers(items[1..]);
      OrphanKeepsDangling(items);
    } else {
      var head, run, rest := SplitBlock(items);
      ByBlockAnswers(rest);
      RepairedRunAnswers(head, run);
      BlockProperties(head, run, rest);
      BlockProperties(head, RepairedRun(head, run), RepairedByBlock(rest));
    }
  }

  lemma PairedBlock(head: Item, run: seq<Item>, rest: seq<Item>)
    requires IsRun(run) && Ids(run) <= Declared(head) && StartsBlock(rest) && PairedFrom(rest, {}) && !head.ToolResult?
    ensures PairedFrom([head] + run + rest, {})
  {
    RunIsPaired(run, rest, Declared(head));
    assert ([head] + run + rest)[1..] == run + rest;
  }

  lemma {:induction false} ByBlockIsPaired(items: seq<Item>)
    ensures PairedFrom(RepairedByBlock(items), {})
    decreases |items|
  {
    if items == [] {
    } else if items[0].ToolResult? {
      ByBlockIsPaired(items[1..]);
    } else {
      var head, run, rest := SplitBlock(items);
      ByBlockIsPaired(rest);
      RepairedRunAnswers(head, run);
      PairedBlock(head, RepairedRun(head, run), RepairedByBlock(rest));
    }
  }

  lemma {:induction false} ByBlockKeepsItems(items: seq<Item>)
    ensures NonResults(RepairedByBlock(items)) == NonResults(items)
    decreases |items|
  {
    if items == [] {
    } else if items[0].ToolResult? {
      ByBlockKeepsItems(items[1..]);
    } else {
      var head, run, rest := SplitBlock(items);
      ByBlockKeepsItems(rest);
      NonResultsOfBlock(head, run, rest);
      NonResultsOfBlock(head, RepairedRun(head, run), RepairedByBlock(rest));
    }
  }

  /** What a provider needs: after repair every result is adjacent to its call and every call is
      answered (once, when no id dangles twice); no other item is lost, moved or added. */
  lemma RepairedIsValid(items: seq<Item>)
    ensures Paired(Repaired(items)) && AllAnswered(Repaired(items))
    ensures NoRepeatedDangling(items) ==> AnsweredOnce(Repaired(items))
    ensures NonResults(Repaired(items)) == NonResults(items)
  {
    RepairIsByBlock(items);
    ByBlockAnswers(items);
    ByBlockIsPaired(items);
    ByBlockKeepsItems(items);
    PairedByScan(Repaired(items));
  }

  // ---------- Which results survive, by position ----------

  /** Item `k` is a tool result in the run directly after an assistant with calls. */
  ghost predicate InCallRun(items: seq<Item>, k: nat)
    requires k < |items|
  {
    exists j: nat :: j < k && HasCalls(items[j]) && forall m :: j < m <= k ==> items[m].ToolResult?
  }

  /** A later result of the same run has the id of item `k`. */
  ghost predicate IsSuperseded(items: seq<Item>, k: nat)
    requires k < |items| && items[k].ToolResult?
  {
    exists m: nat ::
      && k < m < |items| && (forall x :: k < x <= m ==> items[x].ToolResult?)
      && items[m].callId == items[k].callId
  }

  /** Reference: the items from `k` on, without the results that a later one of their run supersedes. */
  ghost function KeepLatest(items: seq<Item>, k: nat): seq<Item>
    requires k <= |items|
    decreases |items| - k
  {
    if k == |items| then []
    else if items[k].ToolResult? && InCallRun(items, k) && IsSuperseded(items, k) then KeepLatest(items, k + 1)
    else [items[k]] + KeepLatest(items, k + 1)
  }

  /** Positions `i` to `e` are a run, and nothing behind it belongs to it. */
  ghost predicate IsRunUpTo(items: seq<Item>, i: nat, e: nat) {
    && i <= e <= |items| && IsRun(items[i..e]) && (e < |items| ==> !items[e].ToolResult?)
  }

  lemma SupersededInRun(items: seq<Item>, i: nat, e: nat)
    requires IsRunUpTo(items, i, e) && i < e
    ensures items[i].ToolResult? && IsRunUpTo(items, i + 1, e)
    ensures IsSuperseded(items, i) <==> items[i].callId in Ids(items[i + 1..e])
  {
    var run := items[i..e];
    assert forall x :: i <= x < e ==> items[x] == run[x - i];
    assert items[i + 1..e] == run[1..];
    IdsHolds(run, 1, items[i].callId);
    if k :| 1 <= k < |run| && run[k].callId == items[i].callId {
      assert items[i + k] == run[k];
    }
  }

  lemma {:induction false} KeepLatestInRun(items: seq<Item>, i: nat, e: nat)
    requires IsRunUpTo(items, i, e) && forall k :: i <= k < e ==> InCallRun(items, k)
    ensures KeepLatest(items, i) == LastPerId(items[i..e]) + KeepLatest(items, e)
    decreases e - i
  {
    if i < e {
      SupersededInRun(items, i, e);
      KeepLatestInRun(items, i + 1, e);
      assert items[i..e][0] == items[i] && items[i..e][1..] == items[i + 1..e];
    }
  }

  lemma RunIsInCallRun(items: seq<Item>, k: nat, e: nat)
    requires k < |items| && HasCalls(items[k]) && IsRunUpTo(items, k + 1, e)
    ensures forall m :: k < m < e ==> InCallRun(items, m)
    ensures e < |items| ==> !InCallRun(items, e)
  {
    assert forall x :: k < x < e ==> items[x] == items[k + 1..e][x - (k + 1)];
  }

  lemma NextNotInCallRun(items: seq<Item>, k: nat)
    requires k < |items| && !HasCalls(items[k]) && !InCallRun(items, k)
    ensures k + 1 < |items| ==> !InCallRun(items, k + 1)
  {
  }

  lemma {:induction false} DedupedFrom(items: seq<Item>, k: nat)
    requires k <= |items| && (k < |items| ==> !InCallRun(items, k))
    ensures Deduped(items[k..]) == KeepLatest(items, k)
    decreases |items| - k
  {
    if k < |items| {
      var rest := items[k..];
      assert rest[0] == items[k] && rest[1..] == items[k + 1..];
      if HasCalls(items[k]) {
        var n := RunLength(items[k + 1..]);
        var e := k + 1 + n;
        assert rest[1..][..n] == items[k + 1..e] && rest[1..][n..] == items[e..];
        assert e < |items| ==> items[e] == items[k + 1..][n];
        RunIsInCallRun(items, k, e);
        DedupedFrom(items, e);
        KeepLatestInRun(items, k + 1, e);
        Assoc([items[k]], LastPerId(items[k + 1..e]), KeepLatest(items, e));
      } else {
        NextNotInCallRun(items, k);
        DedupedFrom(items, k + 1);
      }
    }
  }

  /** Deduplication drops exactly the results that a later one of the same run supersedes; everything
      else stays, unchanged and in order. */
  lemma DedupKeepsLatest(items: seq<Item>)
    ensures Deduped(items) == KeepLatest(items, 0)
  {
    DedupedFrom(items, 0);
    assert items[0..] == items;
  }

  /** Result `i` of the run after `head` answers one of its calls, and no later one does. */
  ghost predicate IsLatestAnswer(head: Item, run: seq<Item>, i: nat)
    requires IsRun(run) && i < |run|
  {
    && head.Assistant? && (exists c :: 0 <= c < |head.calls| && head.calls[c].id == run[i].callId)
    && forall m :: i < m < |run| ==> run[m].callId != run[i].callId
  }

  ghost predicate IsUnanswered(call: ToolCall, run: seq<Item>)
    requires IsRun(run)
  {
    forall m :: 0 <= m < |run| ==> run[m].callId != call.id
  }

  /** Reference: those results, from position `i` on. */
  ghost function Answers(head: Item, run: seq<Item>, i: nat): seq<Item>
    requires IsRun(run) && i <= |run|
    decreases |run| - i
  {
    if i == |run| then []
    else if IsLatestAnswer(head, run, i) then [run[i]] + Answers(head, run, i + 1)
    else Answers(head, run, i + 1)
  }

  /** Reference: a synthetic result for each unanswered call, from the call at `c` on. */
  ghost function Synthesized(calls: seq<ToolCall>, run: seq<Item>, c: nat): seq<Item>
    requires IsRun(run) && c <= |calls|
    decreases |calls| - c
  {
    if c == |calls| then []
    else if IsUnanswered(calls[c], run) then
      [ToolResult(calls[c].id, "Tool execution was halted by the harness (history_repair); the tool `"
        + calls[c].name + "` was not executed.", [])] + Synthesized(calls, run, c + 1)
    else Synthesized(calls, run, c + 1)
  }

  lemma LatestAnswerIs(head: Item, run: seq<Item>, i: nat)
    requires IsRun(run) && i < |run|
    ensures IsLatestAnswer(head, run, i) <==> run[i].callId in Declared(head) && run[i].callId !in Ids(run[i + 1..])
  {
    IdsHolds(run, i + 1, run[i].callId);
    if head.Assistant? {
      CallIdsHolds(head.calls, run[i].callId);
    }
  }

  lemma {:induction false} AnswersAre(head: Item, run: seq<Item>, i: nat)
    requires IsRun(run) && i <= |run|
    ensures Answers(head, run, i) == OnlyDeclared(LastPerId(run[i..]), Declared(head))
    decreases |run| - i
  {
    if i < |run| {
      AnswersAre(head, run, i + 1);
      LatestAnswerIs(head, run, i);
      assert run[i..][0] == run[i] && run[i..][1..] == run[i + 1..];
      OnlyDeclaredOf(run[i], LastPerId(run[i + 1..]), Declared(head));
    }
  }

  lemma OnlyDeclaredOf(first: Item, rest: seq<Item>, ids: set<string>)
    requires first.ToolResult? && IsRun(rest)
    ensures IsRun([first] + rest)
    ensures OnlyDeclared([first] + rest, ids) == (if first.callId in ids then [first] else []) + OnlyDeclared(rest, ids)
  {
    assert ([first] + rest)[1..] == rest;
  }

  lemma {:induction false} SynthesizedAre(head: Item, run: seq<Item>, c: nat, answered: set<string>)
    requires IsRun(run) && head.Assistant? && c <= |head.calls| && answered == Ids(run) * Declared(head)
    ensures Synthesized(head.calls, run, c) == Backfill(head.calls[c..], answered)
    decreases |head.calls| - c
  {
    if c < |head.calls| {
      var call := head.calls[c];
      SynthesizedAre(head, run, c + 1, answered);
      IdsHolds(run, 0, call.id);
      CallIdsHolds(head.calls, call.id);
      assert run[0..] == run;
      assert head.calls[c..][0] == call && head.calls[c..][1..] == head.calls[c + 1..];
    }
  }

  lemma {:induction false} NothingAnswered(head: Item, run: seq<Item>, i: nat)
    requires IsRun(run) && i <= |run| && !HasCalls(head)
    ensures Answers(head, run, i) == [] && OnlyDeclared(run[i..], Declared(head)) == []
    decreases |run| - i
  {
    if i < |run| {
      NothingAnswered(head, run, i + 1);
      assert run[i..][1..] == run[i + 1..];
    }
  }

  lemma RepairedRunIs(head: Item, run: seq<Item>)
    requires IsRun(run)
    ensures RepairedRun(head, run) ==
      Answers(head, run, 0) + if head.Assistant? then Synthesized(head.calls, run, 0) else []
  {
    assert run[0..] == run;
    if HasCalls(head) {
      AnswersAre(head, run, 0);
      SynthesizedAre(head, run, 0, Ids(run) * Declared(head));
      assert head.calls[0..] == head.calls;
    } else {
      NothingAnswered(head, run, 0);
    }
  }

  /** Reference for the whole repair, block by block: an item, the results of its run that are the last
      answer to one of its calls, and synthetic results for the calls without any; results that follow
      no other item are dropped. */
  ghost function RepairedByPosition(items: seq<Item>): seq<Item>
    decreases |items|
  {
    if items == [] then []
    else if items[0].ToolResult? then RepairedByPosition(items[1..])
    else
      var head, n := items[0], RunLength(items[1..]);
      var run, rest := items[1..][..n], items[1..][n..];
      [head] + (Answers(head, run, 0) + if head.Assistant? then Synthesized(head.calls, run, 0) else [])
      + RepairedByPosition(rest)
  }

  /** Repair keeps the last answer to each call, as it was, and invents results only for unanswered calls. */
  lemma {:induction false} RepairIsByPosition(items: seq<Item>)
    ensures Repaired(items) == RepairedByPosition(items)
  {
    RepairIsByBlock(items);
    ByBlockIsByPosition(items);
  }

  lemma {:induction false} ByBlockIsByPosition(items: seq<Item>)
    ensures RepairedByBlock(items) == RepairedByPosition(items)
    decreases |items|
  {
    if items != [] {
      if items[0].ToolResult? {
        ByBlockIsByPosition(items[1..]);
      } else {
        var n := RunLength(items[1..]);
        RepairedRunIs(items[0], items[1..][..n]);
        ByBlockIsByPosition(items[1..][n..]);
      }
    }
  }

  // ---------- The passes as loops over a mutable list ----------

  /** The positions of a run that a later result for the same id supersedes. */
  method SupersededPositions(run: seq<Item>) returns (superseded: set<nat>)
    requires IsRun(run)
    ensures forall j: nat :: j in superseded <==> j < |run| && run[j].callId in Ids(run[j + 1..])
  {
    var seen: map<string, nat> := map[];
    superseded := {};
    for i := 0 to |run|
      invariant forall id :: id in seen ==> seen[id] < i && run[seen[id]].callId == id
      invariant forall j: nat :: j < i ==> run[j].callId in seen && j <= seen[run[j].callId]
      invariant forall j: nat :: j in superseded <==> j < i && seen[run[j].callId] != j
    {
      var id := run[i].callId;
      if id in seen {
        superseded := superseded + {seen[id]};
      }
      seen := seen[id := i];
    }
    forall j: nat | j < |run|
      ensures run[j].callId in Ids(run[j + 1..]) <==> seen[run[j].callId] != j {
      IdsHolds(run, j + 1, run[j].callId);
    }
  }

  lemma {:induction false} IdsHolds(run: seq<Item>, from: nat, id: string)
    requires IsRun(run) && from <= |run|
    ensures id in Ids(run[from..]) <==> exists k :: from <= k < |run| && run[k].callId == id
    decreases |run| - from
  {
    if from < |run| {
      IdsHolds(run, from + 1, id);
      assert run[from..][1..] == run[from + 1..];
    }
  }

  /** Remove superseded results from the back, so earlier positions stay valid. */
  method RemoveSuperseded(run: seq<Item>) returns (kept: seq<Item>, changed: bool)
    requires IsRun(run)
    ensures kept == LastPerId(run) && (changed <==> kept != run)
  {
    var superseded := SupersededPositions(run);
    kept := run;
    var i := |run|;
    while i > 0
      invariant 0 <= i <= |run|
      invariant kept == run[..i] + LastPerId(run[i..])
    {
      i := i - 1;
      assert run[i..][1..] == run[i + 1..];
      assert run[..i + 1] == run[..i] + [run[i]];
      if i in superseded {
        kept := kept[..i] + kept[i + 1..];
      }
    }
    assert run[0..] == run;
    LastPerIdIsDistinct(run);
    changed := kept != run;
  }

  /** Length of the run directly after the first item, found by scanning. */
  method ScanRun(todo: seq<Item>) returns (run: seq<Item>, rest: seq<Item>)
    requires todo != []
    ensures IsRun(run) && StartsBlock(rest) && todo == [todo[0]] + run + rest
  {
    var end := 1;
    while end < |todo| && todo[end].ToolResult?
      invariant 1 <= end <= |todo| && forall k :: 1 <= k < end ==> todo[k].ToolResult?
    {
      end := end + 1;
    }
    run, rest := todo[1..end], todo[end..];
  }

  /** The scan's cursor splits the list into `done` and `todo`. One round cleans the run after the
      item at the cursor, in which case that item is looked at again, or moves past both. */
  method DedupRound(done: seq<Item>, todo: seq<Item>) returns (done': seq<Item>, todo': seq<Item>)
    requires todo != []
    ensures |todo'| < |todo| && |done' + todo'| <= |done + todo|
    ensures done' + Deduped(todo') == done + Deduped(todo)
  {
    var head := todo[0];
    if HasCalls(head) {
      var run, rest := ScanRun(todo);
      DedupedBlock(head, run, rest);
      LastPerIdIsDistinct(run);
      var kept, changed := RemoveSuperseded(run);
      if changed {
        LastPerIdIsDistinct(kept);
        DedupedBlock(head, kept, rest);
        return done, [head] + kept + rest;
      } else {
        Assoc(done, [head] + run, Deduped(rest));
        return done + ([head] + run), rest;
      }
    } else {
      Assoc(done, [head], Deduped(todo[1..]));
      return done + [head], todo[1..];
    }
  }

  method DedupDuplicateToolResults(items: seq<Item>) returns (conversation: seq<Item>, removed: nat)
    ensures conversation == Deduped(items) && removed == |items| - |conversation|
  {
    var done, todo: seq<Item> := [], items;
    while todo != []
      invariant done + Deduped(todo) == Deduped(items) && |done + todo| <= |items|
      decreases |todo|
    {
      done, todo := DedupRound(done, todo);
    }
    return done, |items| - |done|;
  }

  /** Synthetic results to insert, with the position to insert them at. */
  datatype Repair = Repair(at: nat, results: seq<Item>)

  /** Insert from the last repair site backwards. */
  function InsertBackwards(items: seq<Item>, repairs: seq<Repair>): seq<Item>
    requires forall k :: 0 <= k < |repairs| ==> repairs[k].at <= |items|
    decreases |repairs|
  {
    if repairs == [] then items
    else
      var last := repairs[|repairs| - 1];
      InsertBackwards(items[..last.at] + last.results + items[last.at..], repairs[..|repairs| - 1])
  }

  lemma {:induction false} InsertionsLeaveTail(a: seq<Item>, b: seq<Item>, repairs: seq<Repair>)
    requires forall k :: 0 <= k < |repairs| ==> repairs[k].at <= |a|
    ensures InsertBackwards(a + b, repairs) == InsertBackwards(a, repairs) + b
    decreases |repairs|
  {
    if repairs != [] {
      var last := repairs[|repairs| - 1];
      var a' := a[..last.at] + last.results + a[last.at..];
      assert (a + b)[..last.at] + last.results + (a + b)[last.at..] == a' + b;
      InsertionsLeaveTail(a', b, repairs[..|repairs| - 1]);
    }
  }

  lemma InsertionAtEnd(a: seq<Item>, b: seq<Item>, results: seq<Item>, repairs: seq<Repair>)
    requires forall k :: 0 <= k < |repairs| ==> repairs[k].at <= |a|
    ensures InsertBackwards(a + b, repairs + [Repair(|a + b|, results)]) == InsertBackwards(a, repairs) + (b + results)
  {
    var all := repairs + [Repair(|a + b|, results)];
    assert all[..|all| - 1] == repairs;
    assert (a + b)[..|a + b|] + results + (a + b)[|a + b|..] == a + (b + results);
    InsertionsLeaveTail(a, b + results, repairs);
  }

  /** The synthetic results the first item needs, after the run they follow. */
  method DanglingHere(todo: seq<Item>) returns (block: seq<Item>, synthetic: seq<Item>, rest: seq<Item>)
    requires todo != []
    ensures block != [] && todo == block + rest
    ensures Backfilled(todo) == block + synthetic + Backfilled(rest)
  {
    var head := todo[0];
    if HasCalls(head) {
      var run;
      run, rest := ScanRun(todo);
      block, synthetic := [head] + run, Backfill(head.calls, Ids(run));
      BackfilledBlock(head, run, rest);
      Assoc([head], run, synthetic);
    } else {
      block, synthetic, rest := [head], [], todo[1..];
      assert block + synthetic == [head];
    }
  }

  /** Phase 1: where synthetic results go, found in one forward scan. */
  method FindDangling(items: seq<Item>) returns (repairs: seq<Repair>)
    ensures forall k :: 0 <= k < |repairs| ==> repairs[k].at <= |items|
    ensures InsertBackwards(items, repairs) == Backfilled(items)
  {
    var done, todo: seq<Item> := [], items;
    repairs := [];
    ghost var filled: seq<Item> := [];
    while todo != []
      invariant items == done + todo && forall k :: 0 <= k < |repairs| ==> repairs[k].at <= |done|
      invariant InsertBackwards(done, repairs) == filled
      invariant filled + Backfilled(todo) == Backfilled(items)
      decreases |todo|
    {
      var block, synthetic, rest := DanglingHere(todo);
      Assoc(filled, block + synthetic, Backfilled(rest));
      Assoc(done, block, rest);
      InsertionsLeaveTail(done, block, repairs);
      InsertionAtEnd(done, block, synthetic, repairs);
      filled := filled + (block + synthetic);
      done, todo := done + block, rest;
      if synthetic != [] {
        repairs := repairs + [Repair(|done|, synthetic)];
      } else {
        assert block + synthetic == block;
      }
    }
    assert done == items;
  }

  method RepairDanglingToolCalls(items: seq<Item>) returns (conversation: seq<Item>, inserted: nat)
    ensures conversation == Backfilled(items) && inserted == |conversation| - |items|
  {
    var repairs := FindDangling(items);
    conversation := items;
    ghost var target := InsertBackwards(items, repairs);
    var k := |repairs|;
    assert repairs[..k] == repairs;
    while k > 0
      invariant 0 <= k <= |repairs| && |items| <= |conversation|
      invariant InsertBackwards(conversation, repairs[..k]) == target
    {
      k := k - 1;
      var r := repairs[k];
      assert repairs[..k + 1][..k] == repairs[..k];
      conversation := conversation[..r.at] + r.results + conversation[r.at..];
    }
    inserted := |conversation| - |items|;
  }

  datatype Report = Report(duplicatesRemoved: nat, strippedIds: seq<string>, syntheticInserted: nat)

  method RepairHistory(items: seq<Item>) returns (repaired: seq<Item>, report: Report)
    ensures repaired == Repaired(items)
    ensures report.strippedIds == StrippedIds(Deduped(items), {})
    ensures |repaired| + report.duplicatesRemoved + |report.strippedIds| == |items| + report.syntheticInserted
  {
    var deduped, removed := DedupDuplicateToolResults(items);
    var kept, stripped := StripDisplacedToolResults(deduped);
    var filled, inserted := RepairDanglingToolCalls(kept);
    StrippedIsPaired(deduped, {});
    return filled, Report(removed, stripped, inserted);
  }
}
