/** The billing ledger: saturating totals overall and per model. */
module UsageLedger {
  import opened Text

  const U64_MAX: int := 0xFFFF_FFFF_FFFF_FFFF
  const I64_MAX: int := 0x7FFF_FFFF_FFFF_FFFF

  type u32 = n: int | 0 <= n < 0x1_0000_0000
  type u64 = n: int | 0 <= n <= U64_MAX
  type i64 = n: int | -I64_MAX - 1 <= n <= I64_MAX

  datatype UsageTotals = UsageTotals(
    inputTokens: u64, outputTokens: u64, cachedReadTokens: u64, cacheCreationTokens: u64, reasoningTokens: u64,
    modelCalls: u64, apiDurationMs: u64, costUsdTicks: Option<i64>, costMissingCalls: u64)

  datatype TokenUsage = TokenUsage(
    promptTokens: u32, completionTokens: u32, cachedPromptTokens: u32,
    cacheCreationPromptTokens: u32, reasoningTokens: u32)

  const ZERO := UsageTotals(0, 0, 0, 0, 0, 0, 0, None, 0)

  /** The unsigned fields of a total. */
  datatype Counter = Input | Output | CachedRead | CacheCreation | Reasoning | ModelCalls | ApiDuration | CostMissing

  function Get(t: UsageTotals, c: Counter): u64 {
    match c
    case Input => t.inputTokens
    case Output => t.outputTokens
    case CachedRead => t.cachedReadTokens
    case CacheCreation => t.cacheCreationTokens
    case Reasoning => t.reasoningTokens
    case ModelCalls => t.modelCalls
    case ApiDuration => t.apiDurationMs
    case CostMissing => t.costMissingCalls
  }

  function Cap(n: nat): u64 { if n <= U64_MAX then n else U64_MAX }

  function Clamp(n: int): i64 { if n > I64_MAX then I64_MAX else if n < -I64_MAX - 1 then -I64_MAX - 1 else n }

  function Ticks(cost: Option<i64>): i64 { if cost.Some? then cost.value else 0 }

  /** Zero and negative costs stand for an unreported one. */
  function ReportedCost(raw: Option<i64>): Option<i64> { if raw.Some? && raw.value > 0 then raw else None }

  function FromCall(usage: TokenUsage, apiDurationMs: Option<u64>, cost: Option<i64>): UsageTotals {
    var reported := ReportedCost(cost);
    UsageTotals(usage.promptTokens, usage.completionTokens, usage.cachedPromptTokens, usage.cacheCreationPromptTokens,
      usage.reasoningTokens, 1, if apiDurationMs.Some? then apiDurationMs.value else 0,
      reported, if reported.None? then 1 else 0)
  }

  function MergeCost(a: Option<i64>, b: Option<i64>): Option<i64> {
    if a.None? && b.None? then None else Some(Clamp(Ticks(a) + Ticks(b)))
  }

  function FoldTotals(a: UsageTotals, b: UsageTotals): UsageTotals {
    UsageTotals(
      Cap(a.inputTokens + b.inputTokens), Cap(a.outputTokens + b.outputTokens),
      Cap(a.cachedReadTokens + b.cachedReadTokens),
      Cap(a.cacheCreationTokens + b.cacheCreationTokens), Cap(a.reasoningTokens + b.reasoningTokens),
      Cap(a.modelCalls + b.modelCalls), Cap(a.apiDurationMs + b.apiDurationMs),
      MergeCost(a.costUsdTicks, b.costUsdTicks), Cap(a.costMissingCalls + b.costMissingCalls))
  }

  lemma FoldAddsEachCounter(a: UsageTotals, b: UsageTotals, c: Counter)
    ensures Get(FoldTotals(a, b), c) == Cap(Get(a, c) + Get(b, c))
  {
    match c
    case _ =>
  }

  // ---------- The ledger ----------

  datatype Entry = Entry(model: string, totals: UsageTotals)

  /** Models in the order they first appeared. */
  datatype Ledger = Ledger(totals: UsageTotals, byModel: seq<Entry>, mainLoopModelCalls: u64, incomplete: bool)

  const EMPTY := Ledger(ZERO, [], 0, false)

  function FoldModel(entries: seq<Entry>, model: string, t: UsageTotals): seq<Entry> {
    if entries == [] then [Entry(model, FoldTotals(ZERO, t))]
    else if entries[0].model == model then [Entry(model, FoldTotals(entries[0].totals, t))] + entries[1..]
    else [entries[0]] + FoldModel(entries[1..], model, t)
  }

  function FoldEntry(l: Ledger, e: Entry): Ledger {
    l.(totals := FoldTotals(l.totals, e.totals), byModel := FoldModel(l.byModel, e.model, e.totals))
  }

  function FoldEntries(l: Ledger, entries: seq<Entry>): Ledger {
    if entries == [] then l else FoldEntry(FoldEntries(l, entries[..|entries| - 1]), entries[|entries| - 1])
  }

  datatype Step =
    | MainLoopCall(model: string, usage: TokenUsage, apiDurationMs: Option<u64>, cost: Option<i64>)
    | Subagent(entries: seq<Entry>, incomplete: bool)
    | MarkIncomplete

  function Next(l: Ledger, step: Step): Ledger {
    match step
    case MainLoopCall(model, usage, duration, cost) =>
      FoldEntry(l.(mainLoopModelCalls := Cap(l.mainLoopModelCalls + 1)), Entry(model, FromCall(usage, duration, cost)))
    case Subagent(entries, incomplete) =>
      var folded := FoldEntries(l, entries);
      folded.(incomplete := folded.incomplete || incomplete)
    case MarkIncomplete => l.(incomplete := true)
  }

  function Run(steps: seq<Step>): Ledger {
    if steps == [] then EMPTY else Next(Run(steps[..|steps| - 1]), steps[|steps| - 1])
  }

  // ---------- Conservation of the counters ----------

  function Sum(entries: seq<Entry>, c: Counter): nat {
    if entries == [] then 0 else Get(entries[0].totals, c) + Sum(entries[1..], c)
  }

  /** Each counter of the totals is the capped sum of that counter over the models. */
  ghost predicate Conserved(l: Ledger) {
    forall c :: Get(l.totals, c) == Cap(Sum(l.byModel, c))
  }

  /** Folding into a model adds to the sum, up to what saturates; a saturated model saturates the sum. */
  lemma {:induction false} FoldModelSum(entries: seq<Entry>, model: string, t: UsageTotals, c: Counter)
    ensures Cap(Sum(FoldModel(entries, model, t), c)) == Cap(Sum(entries, c) + Get(t, c))
    ensures Sum(FoldModel(entries, model, t), c) <= Sum(entries, c) + Get(t, c)
    ensures Sum(FoldModel(entries, model, t), c) < Sum(entries, c) + Get(t, c)
      ==> Sum(FoldModel(entries, model, t), c) >= U64_MAX
  {
    var after := FoldModel(entries, model, t);
    if entries == [] {
      FoldAddsEachCounter(ZERO, t, c);
      assert Get(ZERO, c) == 0 by { match c case _ => }
      assert after[1..] == [];
    } else if entries[0].model == model {
      FoldAddsEachCounter(entries[0].totals, t, c);
      assert after[1..] == entries[1..];
    } else {
      FoldModelSum(entries[1..], model, t, c);
      assert after[1..] == FoldModel(entries[1..], model, t);
    }
  }

  lemma FoldEntryConserves(l: Ledger, e: Entry)
    requires Conserved(l)
    ensures Conserved(FoldEntry(l, e))
  {
    forall c ensures Get(FoldEntry(l, e).totals, c) == Cap(Sum(FoldEntry(l, e).byModel, c)) {
      FoldAddsEachCounter(l.totals, e.totals, c);
      FoldModelSum(l.byModel, e.model, e.totals, c);
      assert Get(l.totals, c) == Cap(Sum(l.byModel, c));
    }
  }

  // ---------- Conservation of the cost ----------

  function CostSum(entries: seq<Entry>): int {
    if entries == [] then 0 else Ticks(entries[0].totals.costUsdTicks) + CostSum(entries[1..])
  }

  predicate NoCost(entries: seq<Entry>) {
    entries == [] || (entries[0].totals.costUsdTicks.None? && NoCost(entries[1..]))
  }

  predicate NonNegative(entries: seq<Entry>) {
    entries == [] || (Ticks(entries[0].totals.costUsdTicks) >= 0 && NonNegative(entries[1..]))
  }

  /** The cost is the capped sum of the models' costs, and absent exactly when all of theirs are. */
  ghost predicate CostConserved(l: Ledger) {
    && (l.totals.costUsdTicks.None? <==> NoCost(l.byModel))
    && Ticks(l.totals.costUsdTicks) == Clamp(CostSum(l.byModel))
  }

  lemma {:induction false} FoldModelCost(entries: seq<Entry>, model: string, t: UsageTotals)
    requires NonNegative(entries) && Ticks(t.costUsdTicks) >= 0
    ensures var after := FoldModel(entries, model, t);
      && NonNegative(after) && 0 <= CostSum(entries) && 0 <= CostSum(after)
      && (NoCost(after) <==> NoCost(entries) && t.costUsdTicks.None?)
      && (CostSum(after) == CostSum(entries) + Ticks(t.costUsdTicks)
          || I64_MAX <= CostSum(after) < CostSum(entries) + Ticks(t.costUsdTicks))
  {
    var after := FoldModel(entries, model, t);
    if entries == [] {
      assert after[1..] == [];
    } else if entries[0].model == model {
      assert after[1..] == entries[1..];
      NonNegativeSum(entries[1..]);
    } else {
      FoldModelCost(entries[1..], model, t);
      assert after[1..] == FoldModel(entries[1..], model, t);
    }
  }

  lemma {:induction false} NonNegativeSum(entries: seq<Entry>)
    requires NonNegative(entries)
    ensures CostSum(entries) >= 0
  {
    if entries != [] {
      NonNegativeSum(entries[1..]);
    }
  }

  lemma FoldEntryConservesCost(l: Ledger, e: Entry)
    requires NonNegative(l.byModel) && CostConserved(l) && Ticks(e.totals.costUsdTicks) >= 0
    ensures NonNegative(FoldEntry(l, e).byModel) && CostConserved(FoldEntry(l, e))
  {
    FoldModelCost(l.byModel, e.model, e.totals);
  }

  // ---------- Over all runs ----------

  function Models(entries: seq<Entry>): set<string> {
    if entries == [] then {} else {entries[0].model} + Models(entries[1..])
  }

  predicate DistinctModels(entries: seq<Entry>) {
    entries == [] || (entries[0].model !in Models(entries[1..]) && DistinctModels(entries[1..]))
  }

  function TotalsAt(entries: seq<Entry>, model: string): UsageTotals {
    if entries == [] then ZERO
    else if entries[0].model == model then entries[0].totals
    else TotalsAt(entries[1..], model)
  }

  /** Folding touches one model's totals, adding the model if it is new. */
  lemma {:induction false} FoldModelIsUpdate(entries: seq<Entry>, model: string, t: UsageTotals, other: string)
    ensures var after := FoldModel(entries, model, t);
      && Models(after) == Models(entries) + {model}
      && (DistinctModels(entries) ==> DistinctModels(after))
      && TotalsAt(after, other)
         == if other == model then FoldTotals(TotalsAt(entries, model), t) else TotalsAt(entries, other)
  {
    var after := FoldModel(entries, model, t);
    if entries == [] {
      assert after[1..] == [];
    } else if entries[0].model == model {
      assert after[1..] == entries[1..];
    } else {
      FoldModelIsUpdate(entries[1..], model, t, other);
      assert after[1..] == FoldModel(entries[1..], model, t);
    }
  }

  /** What holds of the ledger whatever the costs are. */
  ghost predicate Inv(l: Ledger) {
    Conserved(l) && DistinctModels(l.byModel) && l.mainLoopModelCalls <= l.totals.modelCalls
  }

  lemma FoldEntryKeeps(l: Ledger, e: Entry)
    requires Inv(l)
    ensures Inv(FoldEntry(l, e)) && FoldEntry(l, e).totals.modelCalls == Cap(l.totals.modelCalls + e.totals.modelCalls)
    ensures FoldEntry(l, e).incomplete == l.incomplete && FoldEntry(l, e).mainLoopModelCalls == l.mainLoopModelCalls
  {
    FoldEntryConserves(l, e);
    FoldModelIsUpdate(l.byModel, e.model, e.totals, e.model);
  }

  lemma {:induction false} FoldEntriesKeeps(l: Ledger, entries: seq<Entry>)
    requires Inv(l)
    ensures Inv(FoldEntries(l, entries)) && FoldEntries(l, entries).mainLoopModelCalls == l.mainLoopModelCalls
    ensures FoldEntries(l, entries).incomplete == l.incomplete
  {
    if entries != [] {
      FoldEntriesKeeps(l, entries[..|entries| - 1]);
      FoldEntryKeeps(FoldEntries(l, entries[..|entries| - 1]), entries[|entries| - 1]);
    }
  }

  lemma MainLoopCallKeeps(l: Ledger, step: Step)
    requires Inv(l) && step.MainLoopCall?
    ensures Inv(Next(l, step)) && Next(l, step).incomplete == l.incomplete
    ensures Next(l, step).mainLoopModelCalls == Cap(l.mainLoopModelCalls + 1)
  {
    FoldEntryConserves(l, Entry(step.model, FromCall(step.usage, step.apiDurationMs, step.cost)));
    FoldModelIsUpdate(l.byModel, step.model, FromCall(step.usage, step.apiDurationMs, step.cost), step.model);
    var next := Next(l, step);
    var plain := FoldEntry(l, Entry(step.model, FromCall(step.usage, step.apiDurationMs, step.cost)));
    assert next.totals == plain.totals && next.byModel == plain.byModel;
  }

  function MainLoopCalls(steps: seq<Step>): nat {
    if steps == [] then 0
    else MainLoopCalls(steps[..|steps| - 1]) + if steps[|steps| - 1].MainLoopCall? then 1 else 0
  }

  predicate MarksIncomplete(step: Step) { step.MarkIncomplete? || (step.Subagent? && step.incomplete) }

  /** After every run: counters are conserved under saturation, the main-loop count is the capped
      number of main-loop calls and never above all model calls, and the ledger is incomplete exactly
      if some step said so. */
  lemma {:induction false} RunConserves(steps: seq<Step>)
    ensures Inv(Run(steps)) && Run(steps).mainLoopModelCalls == Cap(MainLoopCalls(steps))
    ensures Run(steps).incomplete <==> exists i :: 0 <= i < |steps| && MarksIncomplete(steps[i])
  {
    if steps != [] {
      var init, step := steps[..|steps| - 1], steps[|steps| - 1];
      RunConserves(init);
      var l := Run(init);
      match step
      case MainLoopCall(_, _, _, _) => MainLoopCallKeeps(l, step);
      case Subagent(entries, _) => FoldEntriesKeeps(l, entries);
      case MarkIncomplete =>
      assert forall i :: 0 <= i < |init| ==> steps[i] == init[i];
      assert MarksIncomplete(step) ==> MarksIncomplete(steps[|steps| - 1]);
    } else {
      assert forall c :: Get(ZERO, c) == 0 by { forall c ensures Get(ZERO, c) == 0 { match c case _ => } }
    }
  }

  /** What a step reports for a counter. */
  function Reported(step: Step, c: Counter): nat {
    match step
    case MainLoopCall(_, usage, duration, cost) =>
      (match c
       case Input => usage.promptTokens
       case Output => usage.completionTokens
       case CachedRead => usage.cachedPromptTokens
       case CacheCreation => usage.cacheCreationPromptTokens
       case Reasoning => usage.reasoningTokens
       case ModelCalls => 1
       case ApiDuration => if duration.Some? then duration.value else 0
       case CostMissing => if cost.Some? && cost.value > 0 then 0 else 1)
    case Subagent(entries, _) => Sum(entries, c)
    case MarkIncomplete => 0
  }

  function AllReported(steps: seq<Step>, c: Counter): nat {
    if steps == [] then 0 else AllReported(steps[..|steps| - 1], c) + Reported(steps[|steps| - 1], c)
  }

  lemma {:induction false} SumLast(entries: seq<Entry>, e: Entry, c: Counter)
    ensures Sum(entries + [e], c) == Sum(entries, c) + Get(e.totals, c)
  {
    if entries == [] {
      assert (entries + [e])[1..] == [];
    } else {
      assert (entries + [e])[1..] == entries[1..] + [e];
      SumLast(entries[1..], e, c);
    }
  }

  lemma {:induction false} FoldEntriesAdd(l: Ledger, entries: seq<Entry>, c: Counter)
    ensures Get(FoldEntries(l, entries).totals, c) == Cap(Get(l.totals, c) + Sum(entries, c))
  {
    if entries != [] {
      var init, e := entries[..|entries| - 1], entries[|entries| - 1];
      FoldEntriesAdd(l, init, c);
      FoldAddsEachCounter(FoldEntries(l, init).totals, e.totals, c);
      assert init + [e] == entries;
      SumLast(init, e, c);
    }
  }

  lemma CallReports(step: Step, c: Counter)
    requires step.MainLoopCall?
    ensures Get(FromCall(step.usage, step.apiDurationMs, step.cost), c) == Reported(step, c)
  {
    match c
    case _ =>
  }

  lemma StepReports(l: Ledger, step: Step, c: Counter)
    ensures Get(Next(l, step).totals, c) == Cap(Get(l.totals, c) + Reported(step, c))
  {
    match step
    case MainLoopCall(_, usage, duration, cost) =>
      FoldAddsEachCounter(l.totals, FromCall(usage, duration, cost), c);
      CallReports(step, c);
    case Subagent(entries, _) => FoldEntriesAdd(l, entries, c);
    case MarkIncomplete =>
  }

  lemma ZeroIsZero(c: Counter)
    ensures Get(ZERO, c) == 0
  {
    match c
    case _ =>
  }

  /** Nothing reported is lost but what saturates: each counter is the capped sum of all reports. */
  lemma {:induction false} TotalsAreReported(steps: seq<Step>, c: Counter)
    ensures Get(Run(steps).totals, c) == Cap(AllReported(steps, c))
  {
    if steps == [] {
      ZeroIsZero(c);
    } else {
      TotalsAreReported(steps[..|steps| - 1], c);
      StepReports(Run(steps[..|steps| - 1]), steps[|steps| - 1], c);
    }
  }

  // ---------- Cost over all runs, whatever the signs ----------

  /** Everything a run folds in, in order. */
  function Records(steps: seq<Step>): seq<Entry> {
    if steps == [] then []
    else
      Records(steps[..|steps| - 1]) +
      match steps[|steps| - 1]
      case MainLoopCall(model, usage, duration, cost) => [Entry(model, FromCall(usage, duration, cost))]
      case Subagent(entries, _) => entries
      case MarkIncomplete => []
  }

  predicate SameBooks(a: Ledger, b: Ledger) { a.totals == b.totals && a.byModel == b.byModel }

  lemma {:induction false} FoldEntriesMore(l: Ledger, m: Ledger, before: seq<Entry>, entries: seq<Entry>)
    requires SameBooks(m, FoldEntries(l, before))
    ensures SameBooks(FoldEntries(m, entries), FoldEntries(l, before + entries))
  {
    if entries == [] {
      assert before + entries == before;
    } else {
      var init, e := entries[..|entries| - 1], entries[|entries| - 1];
      FoldEntriesMore(l, m, before, init);
      assert (before + entries)[..|before + entries| - 1] == before + init;
      assert (before + entries)[|before + entries| - 1] == e;
    }
  }

  lemma {:induction false} RunFoldsRecords(steps: seq<Step>)
    ensures SameBooks(Run(steps), FoldEntries(EMPTY, Records(steps)))
  {
    if steps != [] {
      var init, step := steps[..|steps| - 1], steps[|steps| - 1];
      var l := Run(init);
      RunFoldsRecords(init);
      match step
      case MainLoopCall(model, usage, duration, cost) =>
        var e := Entry(model, FromCall(usage, duration, cost));
        FoldEntriesMore(EMPTY, l, Records(init), [e]);
        assert FoldEntries(l, [e]) == FoldEntry(l, e) by { assert [e][..0] == []; }
      case Subagent(entries, _) => FoldEntriesMore(EMPTY, l, Records(init), entries);
      case MarkIncomplete => assert Records(steps) == Records(init);
    }
  }

  /** What a report says of cost: to which model, and how many ticks if any. */
  datatype Charge = Charge(model: string, ticks: Option<i64>)

  /** The charges of a run, read off its steps: a call reports its cost only if that is positive. */
  function Charges(steps: seq<Step>): seq<Charge> {
    if steps == [] then []
    else
      Charges(steps[..|steps| - 1]) +
      match steps[|steps| - 1]
      case MainLoopCall(model, _, _, cost) => [Charge(model, if cost.Some? && cost.value > 0 then cost else None)]
      case Subagent(entries, _) => ChargesOf(entries)
      case MarkIncomplete => []
  }

  function ChargeOf(e: Entry): Charge { Charge(e.model, e.totals.costUsdTicks) }

  function ChargesOf(entries: seq<Entry>): (r: seq<Charge>)
    ensures |r| == |entries|
  {
    if entries == [] then [] else [ChargeOf(entries[0])] + ChargesOf(entries[1..])
  }

  lemma {:induction false} ChargesOfConcat(a: seq<Entry>, b: seq<Entry>)
    ensures ChargesOf(a + b) == ChargesOf(a) + ChargesOf(b)
  {
    if a == [] {
      assert a + b == b;
    } else {
      assert (a + b)[1..] == a[1..] + b;
      ChargesOfConcat(a[1..], b);
      Assoc([ChargeOf(a[0])], ChargesOf(a[1..]), ChargesOf(b));
    }
  }

  lemma {:induction false} ChargesOfMore(records: seq<Entry>, e: Entry)
    ensures ChargesOf(records + [e]) == ChargesOf(records) + [ChargeOf(e)]
  {
    ChargesOfConcat(records, [e]);
    assert [e][1..] == [];
  }

  /** What a run folds in carries just those charges. */
  lemma {:induction false} RecordsCarryCharges(steps: seq<Step>)
    ensures ChargesOf(Records(steps)) == Charges(steps)
  {
    if steps != [] {
      var init, step := steps[..|steps| - 1], steps[|steps| - 1];
      RecordsCarryCharges(init);
      match step
      case MainLoopCall(model, usage, duration, cost) =>
        ChargesOfMore(Records(init), Entry(model, FromCall(usage, duration, cost)));
      case Subagent(entries, _) => ChargesOfConcat(Records(init), entries);
      case MarkIncomplete => assert Records(steps) == Records(init);
    }
  }

  function TicksOf(c: Charge): i64 { Ticks(c.ticks) }

  /** All ticks charged, each saturating add clamped: what the totals should hold. */
  function TotalWalk(charges: seq<Charge>): i64 {
    if charges == [] then 0 else Clamp(TotalWalk(charges[..|charges| - 1]) + TicksOf(charges[|charges| - 1]))
  }

  /** The same over the charges of one model. */
  function ModelWalk(charges: seq<Charge>, model: string): i64 {
    if charges == [] then 0
    else
      var before, c := ModelWalk(charges[..|charges| - 1], model), charges[|charges| - 1];
      if c.model == model then Clamp(before + TicksOf(c)) else before
  }

  lemma {:induction false} WalkOneMore(charges: seq<Charge>, c: Charge, model: string)
    ensures TotalWalk(charges + [c]) == Clamp(TotalWalk(charges) + TicksOf(c))
    ensures ModelWalk(charges + [c], model) ==
      if c.model == model then Clamp(ModelWalk(charges, model) + TicksOf(c)) else ModelWalk(charges, model)
  {
    assert (charges + [c])[..|charges|] == charges;
  }

  lemma FoldClamps(t: UsageTotals, more: UsageTotals)
    ensures Ticks(FoldTotals(t, more).costUsdTicks) == Clamp(Ticks(t.costUsdTicks) + Ticks(more.costUsdTicks))
    ensures FoldTotals(t, more).costUsdTicks.None? <==> t.costUsdTicks.None? && more.costUsdTicks.None?
  {
  }

  function CostAt(entries: seq<Entry>, model: string): i64 { Ticks(TotalsAt(entries, model).costUsdTicks) }

  lemma FoldModelCostAt(entries: seq<Entry>, e: Entry, model: string)
    ensures CostAt(FoldModel(entries, e.model, e.totals), model)
         == if e.model == model then Clamp(CostAt(entries, model) + TicksOf(ChargeOf(e))) else CostAt(entries, model)
  {
    FoldModelIsUpdate(entries, e.model, e.totals, model);
    FoldClamps(TotalsAt(entries, model), e.totals);
  }

  lemma {:induction false} FoldModelCostSum(entries: seq<Entry>, e: Entry)
    ensures CostSum(FoldModel(entries, e.model, e.totals))
         == CostSum(entries) - CostAt(entries, e.model) + Clamp(CostAt(entries, e.model) + TicksOf(ChargeOf(e)))
  {
    var after := FoldModel(entries, e.model, e.totals);
    if entries == [] {
      FoldClamps(ZERO, e.totals);
      assert after[1..] == [];
    } else if entries[0].model == e.model {
      FoldClamps(entries[0].totals, e.totals);
      assert after[1..] == entries[1..];
    } else {
      FoldModelCostSum(entries[1..], e);
      assert after[1..] == FoldModel(entries[1..], e.model, e.totals);
    }
  }

  lemma {:induction false} FoldModelNoCost(entries: seq<Entry>, model: string, t: UsageTotals)
    ensures NoCost(FoldModel(entries, model, t)) <==> NoCost(entries) && t.costUsdTicks.None?
  {
    var after := FoldModel(entries, model, t);
    if entries == [] {
      FoldClamps(ZERO, t);
      assert after[1..] == [];
    } else if entries[0].model == model {
      FoldClamps(entries[0].totals, t);
      assert after[1..] == entries[1..];
    } else {
      FoldModelNoCost(entries[1..], model, t);
      assert after[1..] == FoldModel(entries[1..], model, t);
    }
  }

  lemma {:induction false} FoldOneMore(records: seq<Entry>, e: Entry)
    ensures FoldEntries(EMPTY, records + [e]) == FoldEntry(FoldEntries(EMPTY, records), e)
  {
    assert (records + [e])[..|records|] == records;
  }

  lemma {:induction false} TotalsWalkMore(records: seq<Entry>, e: Entry)
    requires Ticks(FoldEntries(EMPTY, records).totals.costUsdTicks) == TotalWalk(ChargesOf(records))
    ensures Ticks(FoldEntries(EMPTY, records + [e]).totals.costUsdTicks) == TotalWalk(ChargesOf(records + [e]))
  {
    FoldOneMore(records, e);
    FoldClamps(FoldEntries(EMPTY, records).totals, e.totals);
    ChargesOfMore(records, e);
    WalkOneMore(ChargesOf(records), ChargeOf(e), []);
  }

  lemma {:induction false} TotalsWalk(records: seq<Entry>)
    ensures Ticks(FoldEntries(EMPTY, records).totals.costUsdTicks) == TotalWalk(ChargesOf(records))
  {
    if records != [] {
      var init, e := records[..|records| - 1], records[|records| - 1];
      TotalsWalk(init);
      TotalsWalkMore(init, e);
      assert init + [e] == records;
    }
  }

  lemma {:induction false} ModelsWalkMore(records: seq<Entry>, e: Entry, model: string)
    requires CostAt(FoldEntries(EMPTY, records).byModel, model) == ModelWalk(ChargesOf(records), model)
    ensures CostAt(FoldEntries(EMPTY, records + [e]).byModel, model) == ModelWalk(ChargesOf(records + [e]), model)
  {
    FoldOneMore(records, e);
    FoldModelCostAt(FoldEntries(EMPTY, records).byModel, e, model);
    ChargesOfMore(records, e);
    WalkOneMore(ChargesOf(records), ChargeOf(e), model);
  }

  lemma {:induction false} ModelsWalk(records: seq<Entry>, model: string)
    ensures CostAt(FoldEntries(EMPTY, records).byModel, model) == ModelWalk(ChargesOf(records), model)
  {
    if records != [] {
      var init, e := records[..|records| - 1], records[|records| - 1];
      ModelsWalk(init, model);
      ModelsWalkMore(init, e, model);
      assert init + [e] == records;
    }
  }

  ghost predicate NoTicks(charges: seq<Charge>) {
    forall i :: 0 <= i < |charges| ==> charges[i].ticks.None?
  }

  lemma {:induction false} CostIsAbsent(records: seq<Entry>)
    ensures var l := FoldEntries(EMPTY, records);
      && (l.totals.costUsdTicks.None? <==> NoCost(l.byModel))
      && (l.totals.costUsdTicks.None? <==> NoTicks(ChargesOf(records)))
  {
    if records != [] {
      var init, e := records[..|records| - 1], records[|records| - 1];
      CostIsAbsent(init);
      FoldClamps(FoldEntries(EMPTY, init).totals, e.totals);
      FoldModelNoCost(FoldEntries(EMPTY, init).byModel, e.model, e.totals);
      ChargesOfMore(init, e);
      NoTicksMore(ChargesOf(init), ChargeOf(e));
      assert init + [e] == records;
    }
  }

  lemma {:induction false} NoTicksMore(charges: seq<Charge>, c: Charge)
    ensures NoTicks(charges + [c]) <==> NoTicks(charges) && c.ticks.None?
  {
    var all := charges + [c];
    assert all[|charges|] == c;
    assert forall i :: 0 <= i < |charges| ==> all[i] == charges[i];
  }

  /** The account of the cost after every run, for costs of any sign, told from the steps: it is absent
      exactly when absent for every model, and when no step reported one; totals and models are each
      the clamped walk of their own charges. */
  lemma RunCostWalks(steps: seq<Step>, model: string)
    ensures var l := Run(steps);
      && (l.totals.costUsdTicks.None? <==> NoCost(l.byModel))
      && (l.totals.costUsdTicks.None? <==> NoTicks(Charges(steps)))
      && Ticks(l.totals.costUsdTicks) == TotalWalk(Charges(steps))
      && CostAt(l.byModel, model) == ModelWalk(Charges(steps), model)
  {
    RunFoldsRecords(steps);
    RecordsCarryCharges(steps);
    CostIsAbsent(Records(steps));
    TotalsWalk(Records(steps));
    ModelsWalk(Records(steps), model);
  }

  /** The models in the order the charges first name them. */
  function FirstModels(charges: seq<Charge>): seq<string> {
    if charges == [] then []
    else
      var before, c := FirstModels(charges[..|charges| - 1]), charges[|charges| - 1];
      if c.model in before then before else before + [c.model]
  }

  function ModelSeq(entries: seq<Entry>): seq<string> {
    if entries == [] then [] else [entries[0].model] + ModelSeq(entries[1..])
  }

  lemma {:induction false} ModelSeqHolds(entries: seq<Entry>, model: string)
    ensures model in ModelSeq(entries) <==> model in Models(entries)
  {
    if entries != [] {
      ModelSeqHolds(entries[1..], model);
    }
  }

  lemma {:induction false} FoldModelSeq(entries: seq<Entry>, model: string, t: UsageTotals)
    ensures ModelSeq(FoldModel(entries, model, t))
         == if model in ModelSeq(entries) then ModelSeq(entries) else ModelSeq(entries) + [model]
  {
    var after := FoldModel(entries, model, t);
    if entries == [] {
      assert after[1..] == [];
    } else if entries[0].model == model {
      assert after[1..] == entries[1..];
    } else {
      FoldModelSeq(entries[1..], model, t);
      assert after[1..] == FoldModel(entries[1..], model, t);
    }
  }

  lemma {:induction false} FirstModelsMore(charges: seq<Charge>, c: Charge)
    ensures FirstModels(charges + [c])
         == if c.model in FirstModels(charges) then FirstModels(charges) else FirstModels(charges) + [c.model]
  {
    assert (charges + [c])[..|charges|] == charges;
  }

  lemma {:induction false} RecordsNameMore(records: seq<Entry>, e: Entry)
    requires ModelSeq(FoldEntries(EMPTY, records).byModel) == FirstModels(ChargesOf(records))
    ensures ModelSeq(FoldEntries(EMPTY, records + [e]).byModel) == FirstModels(ChargesOf(records + [e]))
  {
    FoldOneMore(records, e);
    FoldModelSeq(FoldEntries(EMPTY, records).byModel, e.model, e.totals);
    ChargesOfMore(records, e);
    FirstModelsMore(ChargesOf(records), ChargeOf(e));
  }

  lemma {:induction false} RecordsNameModels(records: seq<Entry>)
    ensures ModelSeq(FoldEntries(EMPTY, records).byModel) == FirstModels(ChargesOf(records))
  {
    if records != [] {
      var init, e := records[..|records| - 1], records[|records| - 1];
      RecordsNameModels(init);
      RecordsNameMore(init, e);
      assert init + [e] == records;
    }
  }

  function SumAt(entries: seq<Entry>, models: seq<string>): int {
    if models == [] then 0 else CostAt(entries, models[0]) + SumAt(entries, models[1..])
  }

  /** The walks of all models, added up. */
  function SumOfWalks(charges: seq<Charge>, models: seq<string>): int {
    if models == [] then 0 else ModelWalk(charges, models[0]) + SumOfWalks(charges, models[1..])
  }

  lemma {:induction false} SumAtSkips(entries: seq<Entry>, models: seq<string>)
    requires entries != [] && entries[0].model !in models
    ensures SumAt(entries, models) == SumAt(entries[1..], models)
  {
    if models != [] {
      assert models[0] in models;
      SumAtSkips(entries, models[1..]);
    }
  }

  lemma {:induction false} CostSumByModel(entries: seq<Entry>)
    requires DistinctModels(entries)
    ensures CostSum(entries) == SumAt(entries, ModelSeq(entries))
  {
    if entries != [] {
      var rest := entries[1..];
      CostSumByModel(rest);
      ModelSeqHolds(rest, entries[0].model);
      SumAtSkips(entries, ModelSeq(rest));
      assert ModelSeq(entries)[1..] == ModelSeq(rest);
    }
  }

  lemma {:induction false} SumAtIsWalks(records: seq<Entry>, models: seq<string>)
    ensures SumAt(FoldEntries(EMPTY, records).byModel, models) == SumOfWalks(ChargesOf(records), models)
  {
    if models != [] {
      ModelsWalk(records, models[0]);
      SumAtIsWalks(records, models[1..]);
    }
  }

  /** The sum over the models, from the charges alone. */
  function ModelTotal(charges: seq<Charge>): int { SumOfWalks(charges, FirstModels(charges)) }

  lemma ModelsSum(records: seq<Entry>)
    ensures CostSum(FoldEntries(EMPTY, records).byModel) == ModelTotal(ChargesOf(records))
  {
    var l := FoldEntries(EMPTY, records);
    assert Inv(EMPTY) by {
      forall c ensures Get(ZERO, c) == 0 {
        ZeroIsZero(c);
      }
    }
    FoldEntriesKeeps(EMPTY, records);
    CostSumByModel(l.byModel);
    RecordsNameModels(records);
    SumAtIsWalks(records, FirstModels(ChargesOf(records)));
  }

  /** When cost is conserved, for every run and costs of any sign, as a condition on the charges: the
      clamped walk of all ticks against the clamped walks of each model's ticks, added up. */
  lemma RunCostIff(steps: seq<Step>)
    ensures var l, charges := Run(steps), Charges(steps);
      && (Ticks(l.totals.costUsdTicks) == CostSum(l.byModel) <==> TotalWalk(charges) == ModelTotal(charges))
      && (CostConserved(l) <==> TotalWalk(charges) == Clamp(ModelTotal(charges)))
  {
    RunCostWalks(steps, []);
    RunFoldsRecords(steps);
    RecordsCarryCharges(steps);
    ModelsSum(Records(steps));
  }

  // ---------- When nothing saturates, read off the charges ----------

  predicate InRange(n: int) { -I64_MAX - 1 <= n <= I64_MAX }

  /** All ticks charged. */
  function ChargeSum(charges: seq<Charge>): int {
    if charges == [] then 0 else TicksOf(charges[0]) + ChargeSum(charges[1..])
  }

  lemma {:induction false} ChargeSumLast(charges: seq<Charge>, c: Charge)
    ensures ChargeSum(charges + [c]) == ChargeSum(charges) + TicksOf(c)
  {
    if charges == [] {
      assert (charges + [c])[1..] == [];
    } else {
      assert (charges + [c])[1..] == charges[1..] + [c];
      ChargeSumLast(charges[1..], c);
    }
  }

  /** What is charged to a model. */
  function ModelCost(charges: seq<Charge>, model: string): int {
    if charges == [] then 0
    else (if charges[0].model == model then TicksOf(charges[0]) else 0) + ModelCost(charges[1..], model)
  }

  lemma {:induction false} ModelCostLast(charges: seq<Charge>, c: Charge, model: string)
    ensures ModelCost(charges + [c], model) == ModelCost(charges, model) + if c.model == model then TicksOf(c) else 0
  {
    if charges == [] {
      assert (charges + [c])[1..] == [];
    } else {
      assert (charges + [c])[1..] == charges[1..] + [c];
      ModelCostLast(charges[1..], c, model);
    }
  }

  /** All ticks charged, and all charged to the last model, fit 64 bits. */
  predicate FitsNow(charges: seq<Charge>) {
    charges != [] ==> InRange(ChargeSum(charges)) && InRange(ModelCost(charges, charges[|charges| - 1].model))
  }

  /** That holds after every charge. */
  ghost predicate FitsThroughout(charges: seq<Charge>) {
    forall n :: 0 <= n <= |charges| ==> FitsNow(charges[..n])
  }

  /** No saturating add of the ledger leaves the range. */
  predicate NeverSaturates(charges: seq<Charge>) {
    charges == [] ||
    (var init, c := charges[..|charges| - 1], charges[|charges| - 1];
     && NeverSaturates(init)
     && InRange(TotalWalk(init) + TicksOf(c)) && InRange(ModelWalk(init, c.model) + TicksOf(c)))
  }

  lemma {:induction false} NeverSaturatesMore(charges: seq<Charge>, c: Charge)
    ensures NeverSaturates(charges + [c]) <==>
      && NeverSaturates(charges) && InRange(TotalWalk(charges) + TicksOf(c))
      && InRange(ModelWalk(charges, c.model) + TicksOf(c))
  {
    assert (charges + [c])[..|charges|] == charges;
  }

  lemma {:induction false} FitsOneMore(charges: seq<Charge>, c: Charge)
    ensures FitsThroughout(charges + [c]) <==> FitsThroughout(charges) && FitsNow(charges + [c])
  {
    var all := charges + [c];
    assert forall n :: 0 <= n <= |charges| ==> charges[..n] == all[..n];
    assert all[..|all|] == all;
  }

  lemma {:induction false} FitsNowIs(charges: seq<Charge>, c: Charge)
    ensures FitsNow(charges + [c]) <==>
      InRange(ChargeSum(charges) + TicksOf(c)) && InRange(ModelCost(charges, c.model) + TicksOf(c))
  {
    ChargeSumLast(charges, c);
    ModelCostLast(charges, c, c.model);
    assert (charges + [c])[|charges|] == c;
  }

  /** While nothing saturates, the walks are the sums of the charges. */
  lemma {:induction false} WalksAreSums(charges: seq<Charge>, model: string)
    requires NeverSaturates(charges)
    ensures TotalWalk(charges) == ChargeSum(charges) && ModelWalk(charges, model) == ModelCost(charges, model)
  {
    if charges != [] {
      var init, c := charges[..|charges| - 1], charges[|charges| - 1];
      WalkOneMore(init, c, model);
      NeverSaturatesMore(init, c);
      WalksAreSums(init, model);
      ChargeSumLast(init, c);
      ModelCostLast(init, c, model);
      assert init + [c] == charges;
    }
  }

  /** No add of the ledger saturates exactly when the charges fit 64 bits throughout. */
  lemma {:induction false} UnsaturatedIff(charges: seq<Charge>)
    ensures NeverSaturates(charges) <==> FitsThroughout(charges)
  {
    if charges == [] {
      assert FitsNow([]);
    } else {
      var init, c := charges[..|charges| - 1], charges[|charges| - 1];
      UnsaturatedIff(init);
      NeverSaturatesMore(init, c);
      FitsOneMore(init, c);
      FitsNowIs(init, c);
      if NeverSaturates(init) {
        WalksAreSums(init, c.model);
      }
      assert init + [c] == charges;
    }
  }

  lemma {:induction false} FittingSumIsExact(records: seq<Entry>)
    requires NeverSaturates(ChargesOf(records))
    ensures CostSum(FoldEntries(EMPTY, records).byModel) == ChargeSum(ChargesOf(records))
  {
    if records != [] {
      var init, e := records[..|records| - 1], records[|records| - 1];
      assert init + [e] == records;
      ChargesOfMore(init, e);
      NeverSaturatesMore(ChargesOf(init), ChargeOf(e));
      FittingSumIsExact(init);
      ModelsWalk(init, e.model);
      FoldModelCostSum(FoldEntries(EMPTY, init).byModel, e);
      ChargeSumLast(ChargesOf(init), ChargeOf(e));
    }
  }

  /** If the charges fit throughout, the cost is the sum over the models, and all that was reported. */
  lemma FittingCostIsExact(steps: seq<Step>)
    requires FitsThroughout(Charges(steps))
    ensures Ticks(Run(steps).totals.costUsdTicks) == CostSum(Run(steps).byModel) == ChargeSum(Charges(steps))
  {
    UnsaturatedIff(Charges(steps));
    RunFoldsRecords(steps);
    RecordsCarryCharges(steps);
    TotalsWalk(Records(steps));
    WalksAreSums(Charges(steps), []);
    FittingSumIsExact(Records(steps));
  }

  /** The first saturating add, in integers: `sum` and `own` are what totals and model should reach with
      `x` more, and the other models hold the difference. */
  lemma FirstCut(sum: int, own: int, x: i64)
    requires InRange(sum - x) && InRange(own - x)
    ensures Clamp(sum) == sum - own + Clamp(own) <==> (InRange(sum) && InRange(own)) || sum == own
    ensures Clamp(sum) == Clamp(sum - own + Clamp(own)) <==>
            (own > I64_MAX ==> sum >= own) && (own < -I64_MAX - 1 ==> sum <= own)
  {
  }

  /** Whether the cost is still the sum over the models, and still that sum capped. */
  ghost predicate DecidedBy(total: i64, models: int, sum: int, own: int) {
    && (total == models <==> (InRange(sum) && InRange(own)) || sum == own)
    && (total == Clamp(models) <==> (own > I64_MAX ==> sum >= own) && (own < -I64_MAX - 1 ==> sum <= own))
  }

  lemma {:induction false} FittingIsExact(records: seq<Entry>, model: string)
    requires FitsThroughout(ChargesOf(records))
    ensures var l, charges := FoldEntries(EMPTY, records), ChargesOf(records);
      && Ticks(l.totals.costUsdTicks) == CostSum(l.byModel) == ChargeSum(charges)
      && CostAt(l.byModel, model) == ModelCost(charges, model)
  {
    var charges := ChargesOf(records);
    UnsaturatedIff(charges);
    WalksAreSums(charges, model);
    FittingSumIsExact(records);
    TotalsWalk(records);
    ModelsWalk(records, model);
  }

  lemma {:induction false} FirstSaturationDecides(records: seq<Entry>, e: Entry)
    requires FitsThroughout(ChargesOf(records))
    ensures var l, charges := FoldEntries(EMPTY, records + [e]), ChargesOf(records) + [ChargeOf(e)];
      DecidedBy(Ticks(l.totals.costUsdTicks), CostSum(l.byModel), ChargeSum(charges), ModelCost(charges, e.model))
  {
    var l, charges, c := FoldEntries(EMPTY, records), ChargesOf(records), ChargeOf(e);
    FittingIsExact(records, e.model);
    FoldOneMore(records, e);
    FoldClamps(l.totals, e.totals);
    FoldModelCostSum(l.byModel, e);
    ChargeSumLast(charges, c);
    ModelCostLast(charges, c, e.model);
    FirstCut(ChargeSum(charges) + TicksOf(c), ModelCost(charges, e.model) + TicksOf(c), TicksOf(c));
  }

  /** The cost up to and including the first charge that does not fit, decided by the charges alone: it
      is still the sum over the models exactly when the charge fits after all or the other models sum
      to zero, and still that sum capped exactly unless the other models pull back a model that left
      the range. */
  lemma {:induction false} RunDecidedByReports(steps: seq<Step>)
    requires var charges := Charges(steps); charges != [] && FitsThroughout(charges[..|charges| - 1])
    ensures var l, charges := Run(steps), Charges(steps);
      DecidedBy(Ticks(l.totals.costUsdTicks), CostSum(l.byModel), ChargeSum(charges),
        ModelCost(charges, charges[|charges| - 1].model))
  {
    var records := Records(steps);
    RunFoldsRecords(steps);
    RecordsCarryCharges(steps);
    var init, e := records[..|records| - 1], records[|records| - 1];
    assert init + [e] == records;
    ChargesOfMore(init, e);
    assert (ChargesOf(init) + [ChargeOf(e)])[..|init|] == ChargesOf(init);
    FirstSaturationDecides(init, e);
  }

  ghost predicate ReportsNonNegative(step: Step) {
    step.Subagent? ==> forall i :: 0 <= i < |step.entries| ==> Ticks(step.entries[i].totals.costUsdTicks) >= 0
  }

  lemma {:induction false} FoldEntriesConserveCost(l: Ledger, entries: seq<Entry>)
    requires NonNegative(l.byModel) && CostConserved(l)
    requires forall i :: 0 <= i < |entries| ==> Ticks(entries[i].totals.costUsdTicks) >= 0
    ensures NonNegative(FoldEntries(l, entries).byModel) && CostConserved(FoldEntries(l, entries))
  {
    if entries != [] {
      FoldEntriesConserveCost(l, entries[..|entries| - 1]);
      FoldEntryConservesCost(FoldEntries(l, entries[..|entries| - 1]), entries[|entries| - 1]);
    }
  }

  /** With nonnegative subagent costs the cost is the capped sum, saturating or not; main-loop costs need
      no condition. */
  lemma {:induction false} RunConservesCost(steps: seq<Step>)
    requires forall i :: 0 <= i < |steps| ==> ReportsNonNegative(steps[i])
    ensures NonNegative(Run(steps).byModel) && CostConserved(Run(steps))
  {
    if steps != [] {
      var init, step := steps[..|steps| - 1], steps[|steps| - 1];
      assert forall i :: 0 <= i < |init| ==> init[i] == steps[i];
      RunConservesCost(init);
      var l := Run(init);
      assert ReportsNonNegative(steps[|steps| - 1]);
      match step
      case MainLoopCall(model, usage, duration, cost) =>
        FoldEntryConservesCost(l, Entry(model, FromCall(usage, duration, cost)));
      case Subagent(entries, _) => FoldEntriesConserveCost(l, entries);
      case MarkIncomplete =>
    }
  }

  function Costing(ticks: i64): UsageTotals { ZERO.(costUsdTicks := Some(ticks)) }

  /** A negative subagent cost after a saturated one breaks it: the total forgot what was cut off. */
  lemma NegativeCostIsNotConserved(e1: Entry, e2: Entry, e3: Entry)
    requires e1.model == e3.model != e2.model
    requires e1.totals == e2.totals == Costing(I64_MAX) && e3.totals == Costing(-I64_MAX)
    ensures var l := Run([Subagent([e1, e2, e3], false)]);
      Ticks(l.totals.costUsdTicks) == 0 && CostSum(l.byModel) == I64_MAX && !CostConserved(l)
  {
    OneSubagent([e1, e2, e3]);
    FoldThree(EMPTY, e1, e2, e3);
    CostOfThree(e1, e2, e3);
  }

  lemma OneSubagent(entries: seq<Entry>)
    ensures Run([Subagent(entries, false)]) == FoldEntries(EMPTY, entries)
  {
    assert [Subagent(entries, false)][..0] == [];
    assert Run([]) == EMPTY;
  }

  lemma FoldThree(l: Ledger, e1: Entry, e2: Entry, e3: Entry)
    ensures FoldEntries(l, [e1, e2, e3]) == FoldEntry(FoldEntry(FoldEntry(l, e1), e2), e3)
  {
    assert [e1, e2, e3][..2] == [e1, e2] && [e1, e2][..1] == [e1] && [e1][..0] == [];
    assert FoldEntries(l, [e1]) == FoldEntry(l, e1);
    assert FoldEntries(l, [e1, e2]) == FoldEntry(FoldEntry(l, e1), e2);
  }

  lemma CostOfThree(e1: Entry, e2: Entry, e3: Entry)
    requires e1.model == e3.model != e2.model
    requires e1.totals == e2.totals == Costing(I64_MAX) && e3.totals == Costing(-I64_MAX)
    ensures var l := FoldEntry(FoldEntry(FoldEntry(EMPTY, e1), e2), e3);
      Ticks(l.totals.costUsdTicks) == 0 && CostSum(l.byModel) == I64_MAX
  {
    var m1 := FoldModel([], e1.model, e1.totals);
    var m2 := FoldModel(m1, e2.model, e2.totals);
    var m3 := FoldModel(m2, e3.model, e3.totals);
    assert m1[1..] == [];
    assert m2 == [m1[0]] + FoldModel([], e2.model, e2.totals);
    assert m2[1..] == FoldModel([], e2.model, e2.totals);
    assert m3[1..] == m2[1..] && m2[1..][1..] == [];
    assert CostSum(m2[1..]) == I64_MAX;
    assert Ticks(m3[0].totals.costUsdTicks) == 0;
  }

  // ---------- The mutable ledger ----------

  class MutableLedger {
    var totals: UsageTotals
    var byModel: seq<Entry>
    var mainLoopModelCalls: u64
    var incomplete: bool

    function State(): Ledger
      reads this
    {
      Ledger(totals, byModel, mainLoopModelCalls, incomplete)
    }

    constructor ()
      ensures State() == EMPTY
    {
      totals, byModel, mainLoopModelCalls, incomplete := ZERO, [], 0, false;
    }

    method RecordMainLoopCall(model: string, usage: TokenUsage, apiDurationMs: Option<u64>, cost: Option<i64>)
      modifies this
      ensures State() == Next(old(State()), MainLoopCall(model, usage, apiDurationMs, cost))
    {
      mainLoopModelCalls := Cap(mainLoopModelCalls + 1);
      Fold(model, FromCall(usage, apiDurationMs, cost));
    }

    method RecordSubagent(entries: seq<Entry>, partial: bool)
      modifies this
      ensures State() == Next(old(State()), Subagent(entries, partial))
    {
      for i := 0 to |entries|
        invariant State() == FoldEntries(old(State()), entries[..i])
      {
        assert entries[..i + 1][..i] == entries[..i];
        Fold(entries[i].model, entries[i].totals);
      }
      assert entries[..|entries|] == entries;
      if partial {
        incomplete := true;
      }
    }

    method Mark()
      modifies this`incomplete
      ensures State() == Next(old(State()), MarkIncomplete)
    {
      incomplete := true;
    }

    method Fold(model: string, t: UsageTotals)
      modifies this`totals, this`byModel
      ensures State() == FoldEntry(old(State()), Entry(model, t))
    {
      totals := FoldTotals(totals, t);
      byModel := FoldInto(byModel, model, t);
    }
  }

  lemma FoldModelStep(entries: seq<Entry>, i: nat, model: string, t: UsageTotals)
    requires i < |entries|
    ensures entries[..i] + FoldModel(entries[i..], model, t) ==
      if entries[i].model == model then entries[i := Entry(model, FoldTotals(entries[i].totals, t))]
      else entries[..i + 1] + FoldModel(entries[i + 1..], model, t)
  {
    var rest := entries[i + 1..];
    assert entries[i..][1..] == rest;
    if entries[i].model != model {
      Assoc(entries[..i], [entries[i]], FoldModel(rest, model, t));
      assert entries[..i] + [entries[i]] == entries[..i + 1];
    } else {
      var e := Entry(model, FoldTotals(entries[i].totals, t));
      assert FoldModel(entries[i..], model, t) == [e] + rest;
    }
  }

  /** The entry of a model, found or added at the end, with more folded in. */
  method FoldInto(entries: seq<Entry>, model: string, t: UsageTotals) returns (after: seq<Entry>)
    ensures after == FoldModel(entries, model, t)
  {
    assert entries[..0] + FoldModel(entries[0..], model, t) == FoldModel(entries, model, t) by {
      assert entries[0..] == entries;
    }
    for i := 0 to |entries|
      invariant entries[..i] + FoldModel(entries[i..], model, t) == FoldModel(entries, model, t)
    {
      FoldModelStep(entries, i, model, t);
      if entries[i].model == model {
        return entries[i := Entry(model, FoldTotals(entries[i].totals, t))];
      }
    }
    assert entries[..|entries|] == entries;
    after := entries + [Entry(model, FoldTotals(ZERO, t))];
  }
}
