/** Keeping every tool result in the run directly after the assistant item that asked for it:
    validating, sanitizing and repairing a history. */
module ToolPairs {
  import opened Conversation

  // ---------- The pairing invariant ----------

  /** Only tool results lie between position `i` and an assistant declaring `id`. */
  ghost predicate OwnedAt(items: seq<Item>, i: nat, id: string)
    requires i <= |items|
  {
    exists j: nat :: j < i && id in Declared(items[j]) && forall k :: j < k < i ==> items[k].ToolResult?
  }

  /** Every tool result sits in the contiguous run after its declaring assistant. */
  ghost predicate Paired(items: seq<Item>) {
    forall i: nat :: i < |items| && items[i].ToolResult? ==> OwnedAt(items, i, items[i].callId)
  }

  /** The ids a tool result may carry directly after `item`, given those allowed before it. */
  function NextRun(run: set<string>, item: Item): set<string> {
    if item.ToolResult? then run else Declared(item)
  }

  /** `Paired`, scanned from the left with the ids of the current run. */
  predicate PairedFrom(items: seq<Item>, run: set<string>) {
    items == [] ||
    ((items[0].ToolResult? ==> items[0].callId in run) && PairedFrom(items[1..], NextRun(run, items[0])))
  }

  /** `run` is what position `i` of `items` may answer. */
  ghost predicate IsRunAt(items: seq<Item>, i: nat, run: set<string>)
    requires i <= |items|
  {
    forall id :: id in run <==> OwnedAt(items, i, id)
  }

  lemma RunAdvances(items: seq<Item>, i: nat, run: set<string>)
    requires i < |items| && IsRunAt(items, i, run)
    ensures IsRunAt(items, i + 1, NextRun(run, items[i]))
  {
    forall id ensures id in NextRun(run, items[i]) <==> OwnedAt(items, i + 1, id) {
      if items[i].ToolResult? {
        if OwnedAt(items, i, id) {
          var j: nat :| j < i && id in Declared(items[j]) && forall k :: j < k < i ==> items[k].ToolResult?;
          assert forall k :: j < k < i + 1 ==> items[k].ToolResult?;
        }
        if OwnedAt(items, i + 1, id) {
          var j: nat :| j < i + 1 && id in Declared(items[j]) && forall k :: j < k < i + 1 ==> items[k].ToolResult?;
          assert j < i;
        }
      } else {
        if OwnedAt(items, i + 1, id) {
          var j: nat :| j < i + 1 && id in Declared(items[j]) && forall k :: j < k < i + 1 ==> items[k].ToolResult?;
          assert j == i;
        }
      }
    }
  }

  lemma {:induction false} PairedScan(items: seq<Item>, i: nat, run: set<string>)
    requires i <= |items| && IsRunAt(items, i, run)
    ensures PairedFrom(items[i..], run) <==>
      forall k: nat :: i <= k < |items| && items[k].ToolResult? ==> OwnedAt(items, k, items[k].callId)
    decreases |items| - i
  {
    if i < |items| {
      RunAdvances(items, i, run);
      PairedScan(items, i + 1, NextRun(run, items[i]));
      assert items[i..][1..] == items[i + 1..];
    }
  }

  /** The left-to-right scan decides the positional invariant. */
  lemma PairedByScan(items: seq<Item>)
    ensures Paired(items) <==> PairedFrom(items, {})
  {
    PairedScan(items, 0, {});
    assert items[0..] == items;
  }

  lemma {:induction false} PairedMonotone(items: seq<Item>, run: set<string>, more: set<string>)
    requires PairedFrom(items, run) && run <= more
    ensures PairedFrom(items, more)
  {
    if items != [] {
      PairedMonotone(items[1..], NextRun(run, items[0]), NextRun(more, items[0]));
    }
  }

  lemma {:induction false} PairedConcat(a: seq<Item>, b: seq<Item>, run: set<string>)
    requires PairedFrom(a, run) && PairedFrom(b, {})
    ensures PairedFrom(a + b, run)
  {
    if a == [] {
      assert a + b == b;
      PairedMonotone(b, {}, run);
    } else {
      assert (a + b)[1..] == a[1..] + b;
      PairedConcat(a[1..], b, NextRun(run, a[0]));
    }
  }

  /** What follows a prefix is paired on its own, as soon as it does not open with a tool result. */
  lemma {:induction false} PairedSuffix(items: seq<Item>, run: set<string>, n: nat)
    requires PairedFrom(items, run) && n <= |items|
    requires n < |items| ==> !items[n].ToolResult?
    ensures PairedFrom(items[n..], {})
  {
    if n == 0 {
      assert items[0..] == items;
    } else {
      assert items[n..] == items[1..][n - 1..];
      PairedSuffix(items[1..], NextRun(run, items[0]), n - 1);
    }
  }

  // ---------- Validating and sanitizing a compacted history ----------

  /** Ids declared so far, whatever lies in between. */
  function Seen(seen: set<string>, item: Item): set<string> {
    seen + Declared(item)
  }

  predicate IsOrphan(item: Item, seen: set<string>) {
    item.ToolResult? && item.callId !in seen
  }

  function OrphanIds(items: seq<Item>, seen: set<string>): seq<string> {
    if items == [] then []
    else (if IsOrphan(items[0], seen) then [items[0].callId] else []) + OrphanIds(items[1..], Seen(seen, items[0]))
  }

  function WithoutOrphans(items: seq<Item>, seen: set<string>): seq<Item> {
    if items == [] then []
    else (if IsOrphan(items[0], seen) then [] else [items[0]]) + WithoutOrphans(items[1..], Seen(seen, items[0]))
  }

  ghost predicate DeclaredBefore(items: seq<Item>, k: nat, id: string)
    requires k <= |items|
  {
    exists j: nat :: j < k && id in Declared(items[j])
  }

  /** Reference: the ids, from item `k` on, of the results that no earlier item of the list declares. */
  ghost function UndeclaredIds(items: seq<Item>, k: nat): seq<string>
    requires k <= |items|
    decreases |items| - k
  {
    if k == |items| then []
    else if items[k].ToolResult? && !DeclaredBefore(items, k, items[k].callId)
      then [items[k].callId] + UndeclaredIds(items, k + 1)
    else UndeclaredIds(items, k + 1)
  }

  /** Reference: the items from `k` on that are no such result. */
  ghost function KeepDeclared(items: seq<Item>, k: nat): seq<Item>
    requires k <= |items|
    decreases |items| - k
  {
    if k == |items| then []
    else if items[k].ToolResult? && !DeclaredBefore(items, k, items[k].callId) then KeepDeclared(items, k + 1)
    else [items[k]] + KeepDeclared(items, k + 1)
  }

  lemma {:induction false} OrphansFrom(items: seq<Item>, k: nat, seen: set<string>)
    requires k <= |items| && forall id :: id in seen <==> DeclaredBefore(items, k, id)
    ensures OrphanIds(items[k..], seen) == UndeclaredIds(items, k)
    ensures WithoutOrphans(items[k..], seen) == KeepDeclared(items, k)
    decreases |items| - k
  {
    if k < |items| {
      assert items[k..][1..] == items[k + 1..];
      forall id ensures id in Seen(seen, items[k]) <==> DeclaredBefore(items, k + 1, id) {
        if id in Seen(seen, items[k]) && id !in Declared(items[k]) {
          var j: nat :| j < k && id in Declared(items[j]);
        }
      }
      OrphansFrom(items, k + 1, Seen(seen, items[k]));
    }
  }

  /** A result is an orphan exactly when no earlier assistant declares its id: those are reported, in
      order, and everything else is kept. */
  lemma OrphansAreUndeclared(items: seq<Item>)
    ensures OrphanIds(items, {}) == UndeclaredIds(items, 0) && WithoutOrphans(items, {}) == KeepDeclared(items, 0)
  {
    OrphansFrom(items, 0, {});
    assert items[0..] == items;
  }

  /** Read-only check: the ids of the results no earlier assistant declared, in order. */
  method ValidateCompactedHistory(items: seq<Item>) returns (invalid: seq<string>)
    ensures invalid == OrphanIds(items, {}) == UndeclaredIds(items, 0)
  {
    OrphansAreUndeclared(items);
    var seen: set<string> := {};
    invalid := [];
    ghost var ids := OrphanIds(items, {});
    for i := 0 to |items|
      invariant ids == OrphanIds(items[i..], seen) && invalid + ids == OrphanIds(items, {})
    {
      var item := items[i];
      assert items[i..][1..] == items[i + 1..];
      ghost var next := Seen(seen, item);
      if item.Assistant? {
        seen := seen + Declared(item);
      } else if item.ToolResult? && item.callId !in seen {
        invalid, ids := invalid + [item.callId], ids[1..];
      }
      assert seen == next;
    }
  }

  /** Removes orphaned results left to right and reports exactly the ids validation reports. */
  method SanitizeCompactedHistory(items: seq<Item>) returns (kept: seq<Item>, stripped: seq<string>)
    ensures kept == WithoutOrphans(items, {}) && stripped == OrphanIds(items, {})
  {
    var seen: set<string> := {};
    kept, stripped := [], [];
    ghost var rest, ids := WithoutOrphans(items, {}), OrphanIds(items, {});
    for i := 0 to |items|
      invariant rest == WithoutOrphans(items[i..], seen) && kept + rest == WithoutOrphans(items, {})
      invariant ids == OrphanIds(items[i..], seen) && stripped + ids == OrphanIds(items, {})
    {
      var item := items[i];
      assert items[i..][1..] == items[i + 1..];
      ghost var next := Seen(seen, item);
      if item.ToolResult? && item.callId !in seen {
        stripped, ids := stripped + [item.callId], ids[1..];
      } else {
        if item.Assistant? {
          seen := seen + Declared(item);
        }
        kept, rest := kept + [item], rest[1..];
      }
      assert seen == next;
    }
  }

  /** Sanitizing leaves nothing for validation to report, and is the identity on valid histories. */
  lemma {:induction false} SanitizedIsValid(items: seq<Item>, seen: set<string>)
    ensures OrphanIds(WithoutOrphans(items, seen), seen) == []
    ensures OrphanIds(items, seen) == [] <==> WithoutOrphans(items, seen) == items
    ensures |WithoutOrphans(items, seen)| + |OrphanIds(items, seen)| == |items|
  {
    if items != [] {
      SanitizedIsValid(items[1..], Seen(seen, items[0]));
      var rest := WithoutOrphans(items[1..], Seen(seen, items[0]));
      if IsOrphan(items[0], seen) {
        assert Seen(seen, items[0]) == seen;
        assert WithoutOrphans(items, seen) == rest;
      } else {
        assert WithoutOrphans(items, seen) == [items[0]] + rest;
        assert WithoutOrphans(items, seen)[1..] == rest;
        assert WithoutOrphans(items, seen) == items ==> rest == items[1..];
      }
    }
  }

  /** The contiguous-run invariant implies the weaker validation rule. */
  lemma {:induction false} PairedHasNoOrphans(items: seq<Item>, run: set<string>, seen: set<string>)
    requires PairedFrom(items, run) && run <= seen
    ensures OrphanIds(items, seen) == [] && WithoutOrphans(items, seen) == items
  {
    if items != [] {
      PairedHasNoOrphans(items[1..], NextRun(run, items[0]), Seen(seen, items[0]));
    }
  }

  lemma PairedValidates(items: seq<Item>)
    requires Paired(items)
    ensures OrphanIds(items, {}) == [] && WithoutOrphans(items, {}) == items
  {
    PairedByScan(items);
    PairedHasNoOrphans(items, {}, {});
  }

  // ---------- Stripping displaced tool results ----------

  function Stripped(items: seq<Item>, run: set<string>): seq<Item> {
    if items == [] then []
    else (if IsOrphan(items[0], run) then [] else [items[0]]) + Stripped(items[1..], NextRun(run, items[0]))
  }

  function StrippedIds(items: seq<Item>, run: set<string>): seq<string> {
    if items == [] then []
    else (if IsOrphan(items[0], run) then [items[0].callId] else []) + StrippedIds(items[1..], NextRun(run, items[0]))
  }

  method StripDisplacedToolResults(items: seq<Item>) returns (kept: seq<Item>, stripped: seq<string>)
    ensures kept == Stripped(items, {}) && stripped == StrippedIds(items, {})
  {
    var run: set<string> := {};
    kept, stripped := [], [];
    ghost var rest, ids := Stripped(items, {}), StrippedIds(items, {});
    for i := 0 to |items|
      invariant rest == Stripped(items[i..], run) && kept + rest == Stripped(items, {})
      invariant ids == StrippedIds(items[i..], run) && stripped + ids == StrippedIds(items, {})
    {
      var item := items[i];
      assert items[i..][1..] == items[i + 1..];
      ghost var next := NextRun(run, item);
      if item.ToolResult? && item.callId !in run {
        stripped, ids := stripped + [item.callId], ids[1..];
      } else {
        if item.Assistant? {
          run := Declared(item);
        } else if !item.ToolResult? {
          run := {};
        }
        kept, rest := kept + [item], rest[1..];
      }
      assert run == next;
    }
  }

  /** Reference: keep item `k` and later ones by looking at the original list only. */
  ghost function KeepOwned(items: seq<Item>, k: nat): seq<Item>
    requires k <= |items|
    decreases |items| - k
  {
    if k == |items| then []
    else if items[k].ToolResult? && !OwnedAt(items, k, items[k].callId) then KeepOwned(items, k + 1)
    else [items[k]] + KeepOwned(items, k + 1)
  }

  /** Reference: the ids, from item `k` on, of the results so displaced. */
  ghost function DisplacedIds(items: seq<Item>, k: nat): seq<string>
    requires k <= |items|
    decreases |items| - k
  {
    if k == |items| then []
    else if items[k].ToolResult? && !OwnedAt(items, k, items[k].callId)
      then [items[k].callId] + DisplacedIds(items, k + 1)
    else DisplacedIds(items, k + 1)
  }

  lemma {:induction false} StrippedFrom(items: seq<Item>, k: nat, run: set<string>)
    requires k <= |items| && IsRunAt(items, k, run)
    ensures Stripped(items[k..], run) == KeepOwned(items, k) && StrippedIds(items[k..], run) == DisplacedIds(items, k)
    decreases |items| - k
  {
    if k < |items| {
      RunAdvances(items, k, run);
      StrippedFrom(items, k + 1, NextRun(run, items[k]));
      assert items[k..][1..] == items[k + 1..];
    }
  }

  /** A tool result is kept exactly when, in the original list, only tool results lie between it
      and an assistant declaring its id; every other item is kept; the order is unchanged; and the ids
      reported are those of the results not kept. */
  lemma StripKeepsExactlyOwned(items: seq<Item>)
    ensures Stripped(items, {}) == KeepOwned(items, 0) && StrippedIds(items, {}) == DisplacedIds(items, 0)
  {
    StrippedFrom(items, 0, {});
    assert items[0..] == items;
  }

  lemma {:induction false} StrippedIsPaired(items: seq<Item>, run: set<string>)
    ensures PairedFrom(Stripped(items, run), run)
    ensures PairedFrom(items, run) <==> Stripped(items, run) == items
    ensures |Stripped(items, run)| + |StrippedIds(items, run)| == |items|
  {
    if items != [] {
      StrippedIsPaired(items[1..], NextRun(run, items[0]));
      var rest := Stripped(items[1..], NextRun(run, items[0]));
      if IsOrphan(items[0], run) {
        assert Stripped(items, run) == rest;
      } else {
        assert Stripped(items, run) == [items[0]] + rest;
        assert Stripped(items, run)[1..] == rest;
        assert Stripped(items, run) == items ==> rest == items[1..];
      }
    }
  }

  /** Stripping yields a paired history, leaves paired ones alone, and so passes validation and is idempotent. */
  lemma StripEstablishesPairing(items: seq<Item>)
    ensures Paired(Stripped(items, {}))
    ensures Stripped(items, {}) == items <==> Paired(items)
    ensures Stripped(Stripped(items, {}), {}) == Stripped(items, {})
    ensures OrphanIds(Stripped(items, {}), {}) == []
  {
    StrippedIsPaired(items, {});
    StrippedIsPaired(Stripped(items, {}), {});
    PairedByScan(items);
    PairedByScan(Stripped(items, {}));
    PairedValidates(Stripped(items, {}));
  }
}
