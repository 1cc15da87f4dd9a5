/** Rebuilding a history around its anchors: the last human query and the latest agent message. */
module Compaction {
  import opened Text
  import opened Conversation
  import opened ToolPairs

  /** How text is read and written. `ProgramTexts` at the end of this project fixes these to the
      program's own functions; everything in between holds for any choice. */
  datatype Texts = Texts(
    extract: string -> string,      // the query inside a user message
    wrap: string -> string,         // a query as a user message
    synthetic: string -> bool,      // a query nobody typed
    summarize: string -> string)    // the message that carries a raw summary

  // ---------- Anchors in a conversation ----------

  datatype Kind = Agent | Human | Either

  function QueryOf(t: Texts, item: Item): string
    requires item.User?
  {
    t.extract(JoinedText(item.parts))
  }

  predicate HasImage(parts: seq<Part>) {
    exists i :: 0 <= i < |parts| && parts[i].Image?
  }

  predicate IsRealUserTurn(t: Texts, item: Item) {
    item.User? && item.reason.None? && (HasImage(item.parts) || !t.synthetic(QueryOf(t, item)))
  }

  predicate Is(t: Texts, kind: Kind, item: Item) {
    match kind
    case Agent => IsAgentMessage(item)
    case Human => IsRealUserTurn(t, item)
    case Either => IsAgentMessage(item) || IsRealUserTurn(t, item)
  }

  /** Index of the last item of a kind (`rposition`). */
  function LastIndex(t: Texts, items: seq<Item>, kind: Kind): (r: Option<nat>)
    ensures r.Some? ==> r.value < |items| && Is(t, kind, items[r.value])
    ensures r.Some? ==> forall i :: r.value < i < |items| ==> !Is(t, kind, items[i])
    ensures r.None? ==> forall i :: 0 <= i < |items| ==> !Is(t, kind, items[i])
  {
    if items == [] then None
    else if Is(t, kind, items[|items| - 1]) then Some(|items| - 1)
    else LastIndex(t, items[..|items| - 1], kind)
  }

  datatype AgentPosition = Only | BeforeHuman | AfterHuman

  datatype Anchor = Anchor(item: Item, position: AgentPosition)

  function LatestAgentMessage(t: Texts, conversation: seq<Item>): Option<Anchor> {
    match LastIndex(t, conversation, Agent)
    case None => None
    case Some(a) =>
      var position := match LastIndex(t, conversation, Human)
        case Some(h) => if a < h then BeforeHuman else AfterHuman
        case None => Only;
      Some(Anchor(conversation[a], position))
  }

  function LastRealUserQuery(t: Texts, conversation: seq<Item>): Option<string> {
    match LastIndex(t, conversation, Human)
    case None => None
    case Some(h) => Some(QueryOf(t, conversation[h]))
  }

  // ---------- Reference: the anchors, by one scan from the left ----------

  datatype View = View(anchor: Option<Anchor>, query: Option<string>)

  const NOTHING := View(None, None)

  function Look(t: Texts, v: View, item: Item): View {
    if IsAgentMessage(item) then v.(anchor := Some(Anchor(item, if v.query.None? then Only else AfterHuman)))
    else if IsRealUserTurn(t, item) then
      View(match v.anchor case None => None case Some(a) => Some(a.(position := BeforeHuman)), Some(QueryOf(t, item)))
    else v
  }

  function Scan(t: Texts, v: View, items: seq<Item>): View
    decreases |items|
  {
    if items == [] then v else Scan(t, Look(t, v, items[0]), items[1..])
  }

  lemma {:induction false} ScanConcat(t: Texts, v: View, a: seq<Item>, b: seq<Item>)
    ensures Scan(t, v, a + b) == Scan(t, Scan(t, v, a), b)
    decreases |a|
  {
    if a == [] {
      assert a + b == b;
    } else {
      assert (a + b)[1..] == a[1..] + b;
      ScanConcat(t, Look(t, v, a[0]), a[1..], b);
    }
  }

  ghost predicate NoAnchors(t: Texts, items: seq<Item>) {
    forall i :: 0 <= i < |items| ==> !Is(t, Either, items[i])
  }

  lemma {:induction false} ScanSkips(t: Texts, v: View, items: seq<Item>)
    requires NoAnchors(t, items)
    ensures Scan(t, v, items) == v
  {
    if items != [] {
      ScanSkips(t, v, items[1..]);
    }
  }

  /** Both backward searches agree with the scan. */
  lemma {:induction false} ScanFindsAnchors(t: Texts, conversation: seq<Item>)
    ensures Scan(t, NOTHING, conversation)
      == View(LatestAgentMessage(t, conversation), LastRealUserQuery(t, conversation))
  {
    if conversation != [] {
      var n := |conversation| - 1;
      var front, last := conversation[..n], conversation[n];
      ScanFindsAnchors(t, front);
      assert conversation == front + [last];
      ScanConcat(t, NOTHING, front, [last]);
      assert Scan(t, Scan(t, NOTHING, front), [last]) == Look(t, Scan(t, NOTHING, front), last);
    }
  }

  // ---------- The retained tail ----------

  /** What the tail keeps of one item; a tool result keeps its id only. */
  function Retained(item: Item): seq<Item> {
    if IsAgentMessage(item) || item.Assistant? then [item]
    else if item.ToolResult? then [ToolResult(item.callId, "Tool call omitted...", [])]
    else []
  }

  function Retain(items: seq<Item>): seq<Item> {
    if items == [] then [] else Retained(items[0]) + Retain(items[1..])
  }

  function TailStart(t: Texts, conversation: seq<Item>): (n: nat)
    ensures n <= |conversation|
  {
    match LastIndex(t, conversation, Either)
    case None => 0
    case Some(i) => if IsAgentMessage(conversation[i]) then i else i + 1
  }

  function RecentMessages(t: Texts, conversation: seq<Item>): seq<Item> {
    Retain(conversation[TailStart(t, conversation)..])
  }

  /** Dropping what is neither assistant nor result cannot displace a result. */
  lemma {:induction false} RetainKeepsPairing(items: seq<Item>, run: set<string>, more: set<string>)
    requires PairedFrom(items, run) && run <= more
    ensures PairedFrom(Retain(items), more)
  {
    if items != [] {
      var rest := Retain(items[1..]);
      if Retained(items[0]) == [] {
        RetainKeepsPairing(items[1..], NextRun(run, items[0]), more);
        assert Retain(items) == rest;
      } else {
        var kept := Retained(items[0])[0];
        RetainKeepsPairing(items[1..], NextRun(run, items[0]), NextRun(more, kept));
        assert Retain(items) == [kept] + rest;
        assert Retain(items)[1..] == rest;
      }
    }
  }

  lemma TailIsPaired(t: Texts, conversation: seq<Item>)
    requires Paired(conversation)
    ensures PairedFrom(RecentMessages(t, conversation), {})
  {
    var n := TailStart(t, conversation);
    PairedByScan(conversation);
    if n < |conversation| {
      FirstAfterUser(conversation, n);
    }
    PairedSuffix(conversation, {}, n);
    RetainKeepsPairing(conversation[n..], {}, {});
  }

  /** In a paired conversation no tool result opens the list or follows a user item. */
  lemma FirstAfterUser(conversation: seq<Item>, n: nat)
    requires Paired(conversation) && n < |conversation|
      && (n == 0 || conversation[n - 1].User? || conversation[n].User?)
    ensures !conversation[n].ToolResult?
  {
  }

  // ---------- The compacted history ----------

  /** What the caller supplies for one compaction. */
  datatype Input = Input(
    system: Item, prefix: string, agentsMd: Option<string>, cwdGeneration: nat,
    destinationInstructions: Option<string>, summary: string, transcriptHint: Option<string>,
    reminder: Option<string>)

  datatype Context = Context(
    cwdGeneration: nat, destinationInstructions: Option<string>,
    anchor: Option<Anchor>, recent: seq<Item>, lastQuery: Option<string>)

  function BuildContext(t: Texts, conversation: seq<Item>, input: Input): Context {
    Context(input.cwdGeneration, input.destinationInstructions, LatestAgentMessage(t, conversation),
            RecentMessages(t, conversation), LastRealUserQuery(t, conversation))
  }

  /** The compaction view: the working tail is dropped, the agent message is kept. */
  function ForCompaction(t: Texts, c: Context): Context {
    c.(anchor := if c.anchor.Some? then c.anchor else LatestAgentMessage(t, c.recent), recent := [])
  }

  function SummaryItem(t: Texts, input: Input): Item {
    var hint := match input.transcriptHint case None => [] case Some(h) => h;
    UserText(t.summarize(input.summary) + hint, Some(CompactionMeta))
  }

  function Prelude(input: Input): seq<Item> {
    var instructions := if input.cwdGeneration == 0 then input.agentsMd else input.destinationInstructions;
    [input.system, UserText(input.prefix, Some(CompactionMeta))]
    + match instructions case None => [] case Some(text) => [UserText(text, Some(ProjectInstructions))]
  }

  predicate HasAgentMessage(items: seq<Item>) {
    exists i :: 0 <= i < |items| && IsAgentMessage(items[i])
  }

  /** The anchor that has to be placed: none when the tail carries an agent message itself. */
  function PlacedAnchor(c: Context): Option<Anchor> {
    if HasAgentMessage(c.recent) then None else c.anchor
  }

  function QueryItem(t: Texts, q: string): Item {
    UserText(t.wrap(q), None)
  }

  function AnchorsOf(t: Texts, anchor: Option<Anchor>, query: Option<string>): seq<Item> {
    (if anchor.Some? && anchor.value.position.BeforeHuman? then [anchor.value.item] else [])
    + (if query.Some? then [QueryItem(t, query.value)] else [])
    + (if anchor.Some? && !anchor.value.position.BeforeHuman? then [anchor.value.item] else [])
  }

  function Closing(t: Texts, input: Input): seq<Item> {
    [SummaryItem(t, input)]
      + match input.reminder case None => [] case Some(text) => [UserText(text, Some(SystemReminder))]
  }

  function CompactedHistory(t: Texts, input: Input, c: Context): seq<Item> {
    (Prelude(input) + AnchorsOf(t, PlacedAnchor(c), c.lastQuery)) + (c.recent + Closing(t, input))
  }

  /** The items before the retained tail, pushed one by one. */
  method PushFront(t: Texts, input: Input, c: Context) returns (front: seq<Item>)
    ensures front == Prelude(input) + AnchorsOf(t, PlacedAnchor(c), c.lastQuery)
  {
    front := [input.system, UserText(input.prefix, Some(CompactionMeta))];
    var instructions := if input.cwdGeneration == 0 then input.agentsMd else input.destinationInstructions;
    if instructions.Some? {
      front := front + [UserText(instructions.value, Some(ProjectInstructions))];
    }
    assert front == Prelude(input);
    var anchor := PlacedAnchor(c);
    ghost var placed: seq<Item> := [];
    if anchor.Some? && anchor.value.position.BeforeHuman? {
      front, placed := front + [anchor.value.item], placed + [anchor.value.item];
    }
    if c.lastQuery.Some? {
      Assoc(Prelude(input), placed, [QueryItem(t, c.lastQuery.value)]);
      front, placed := front + [QueryItem(t, c.lastQuery.value)], placed + [QueryItem(t, c.lastQuery.value)];
    }
    if anchor.Some? && !anchor.value.position.BeforeHuman? {
      Assoc(Prelude(input), placed, [anchor.value.item]);
      front, placed := front + [anchor.value.item], placed + [anchor.value.item];
    }
    assert placed == AnchorsOf(t, anchor, c.lastQuery);
  }

  method BuildCompactedHistory(t: Texts, input: Input, c: Context) returns (compacted: seq<Item>)
    ensures compacted == CompactedHistory(t, input, c)
  {
    var front := PushFront(t, input, c);
    compacted := front;
    for i := 0 to |c.recent|
      invariant compacted == front + c.recent[..i]
    {
      Assoc(front, c.recent[..i], [c.recent[i]]);
      assert c.recent[..i + 1] == c.recent[..i] + [c.recent[i]];
      compacted := compacted + [c.recent[i]];
    }
    assert c.recent[..|c.recent|] == c.recent;
    compacted := compacted + [SummaryItem(t, input)];
    if input.reminder.Some? {
      compacted := compacted + [UserText(input.reminder.value, Some(SystemReminder))];
      assert [SummaryItem(t, input)] + [UserText(input.reminder.value, Some(SystemReminder))] == Closing(t, input);
      Assoc(front + c.recent, [SummaryItem(t, input)], [UserText(input.reminder.value, Some(SystemReminder))]);
    } else {
      assert [SummaryItem(t, input)] == Closing(t, input);
    }
    Assoc(front, c.recent, Closing(t, input));
  }

  function ContextOf(t: Texts, conversation: seq<Item>, input: Input, keepTail: bool): Context {
    var c := BuildContext(t, conversation, input);
    if keepTail then c else ForCompaction(t, c)
  }

  /** One compaction; `keepTail` keeps the working tail, which `for_compaction` drops. */
  function Compact(t: Texts, conversation: seq<Item>, input: Input, keepTail: bool): seq<Item> {
    CompactedHistory(t, input, ContextOf(t, conversation, input, keepTail))
  }

  // ---------- What a compacted history says ----------

  /** `item` is a user item made by the runtime for `reason`, with exactly this text. */
  predicate SaysFor(item: Item, reason: SyntheticReason, text: string) {
    item == User([TextPart(text)], Some(reason), NO_META)
  }

  /** The project instructions a compaction has to repeat: those given, or after a move those found at
      the destination. */
  function InstructionsOf(input: Input): Option<string> {
    if input.cwdGeneration == 0 then input.agentsMd else input.destinationInstructions
  }

  /** Opens with the system message and the prefix, and repeats the project instructions exactly if there
      are any. */
  predicate SaysOpening(input: Input, opening: seq<Item>) {
    && |opening| == (if InstructionsOf(input).Some? then 3 else 2)
    && opening[0] == input.system
    && SaysFor(opening[1], CompactionMeta, input.prefix)
    && (InstructionsOf(input).Some? ==> SaysFor(opening[2], ProjectInstructions, InstructionsOf(input).value))
  }

  /** Closes with the summary and its hint, and then with the reminder if there is one. */
  predicate SaysClosing(t: Texts, input: Input, closing: seq<Item>) {
    var hint := if input.transcriptHint.Some? then input.transcriptHint.value else [];
    && |closing| == (if input.reminder.Some? then 2 else 1)
    && SaysFor(closing[0], CompactionMeta, t.summarize(input.summary) + hint)
    && (input.reminder.Some? ==> SaysFor(closing[1], SystemReminder, input.reminder.value))
  }

  /** Every compacted history says all it was given, and says nothing of the kind in between. */
  ghost predicate SaysAll(t: Texts, input: Input, history: seq<Item>) {
    var n := if InstructionsOf(input).Some? then 3 else 2;
    var m := if input.reminder.Some? then 2 else 1;
    && |history| >= n + m
    && SaysOpening(input, history[..n]) && SaysClosing(t, input, history[|history| - m..])
    && NoMeta(history[n..|history| - m])
  }

  /** No item carries a summary, a prefix or project instructions. */
  ghost predicate NoMeta(items: seq<Item>) {
    forall i :: 0 <= i < |items| && items[i].User? ==>
      items[i].reason != Some(CompactionMeta) && items[i].reason != Some(ProjectInstructions)
  }

  lemma {:induction false} RetainHasNoMeta(items: seq<Item>)
    ensures NoMeta(Retain(items))
  {
    if items != [] {
      RetainHasNoMeta(items[1..]);
    }
  }

  lemma AnchorIsAgent(t: Texts, conversation: seq<Item>)
    ensures LatestAgentMessage(t, conversation).Some? ==> IsAgentMessage(LatestAgentMessage(t, conversation).value.item)
  {
    var last := LastIndex(t, conversation, Agent);
    assert last.Some? ==> Is(t, Agent, conversation[last.value]);
  }

  lemma AnchorsHaveNoMeta(t: Texts, anchor: Option<Anchor>, query: Option<string>)
    requires anchor.Some? ==> IsAgentMessage(anchor.value.item)
    ensures NoMeta(AnchorsOf(t, anchor, query))
  {
  }

  lemma Framed<T>(front: seq<T>, middle: seq<T>, back: seq<T>)
    ensures var all := front + (middle + back);
      && all[..|front|] == front && all[|all| - |back|..] == back && all[|front|..|all| - |back|] == middle
  {
  }

  lemma FrameSaysAll(t: Texts, input: Input, middle: seq<Item>)
    requires NoMeta(middle)
    ensures SaysAll(t, input, Prelude(input) + (middle + Closing(t, input)))
  {
    assert SaysOpening(input, Prelude(input));
    assert SaysClosing(t, input, Closing(t, input));
    Framed(Prelude(input), middle, Closing(t, input));
  }

  lemma CompactSaysAll(t: Texts, conversation: seq<Item>, input: Input, keepTail: bool)
    ensures SaysAll(t, input, Compact(t, conversation, input, keepTail))
  {
    var c := ContextOf(t, conversation, input, keepTail);
    var anchors := AnchorsOf(t, PlacedAnchor(c), c.lastQuery);
    RetainHasNoMeta(conversation[TailStart(t, conversation)..]);
    AnchorIsAgent(t, conversation);
    AnchorIsAgent(t, RecentMessages(t, conversation));
    AnchorsHaveNoMeta(t, PlacedAnchor(c), c.lastQuery);
    FrameSaysAll(t, input, anchors + c.recent);
    Assoc(Prelude(input), anchors, c.recent + Closing(t, input));
    Assoc(anchors, c.recent, Closing(t, input));
  }

  /** What the tail keeps, item by item: agent messages and assistants as they are, tool results by id
      alone, nothing else. */
  lemma RetainIsItemwise(a: seq<Item>, item: Item, b: seq<Item>)
    ensures Retain(a + [item] + b) == Retain(a) + Retain([item]) + Retain(b)
    ensures item.Assistant? || (item.User? && item.reason == Some(AgentMessage)) ==> Retain([item]) == [item]
    ensures item.ToolResult? ==> Retain([item]) == [ToolResult(item.callId, "Tool call omitted...", [])]
    ensures item.System? || item.Reasoning? || item.BackendToolCall? ==> Retain([item]) == []
    ensures item.User? && item.reason != Some(AgentMessage) ==> Retain([item]) == []
  {
    RetainConcat(a + [item], b);
    RetainConcat(a, [item]);
    assert [item][1..] == [];
  }

  // ---------- Pairing ----------

  lemma {:induction false} NoResultsIsPaired(items: seq<Item>, run: set<string>)
    requires forall i :: 0 <= i < |items| ==> !items[i].ToolResult?
    ensures PairedFrom(items, run)
  {
    if items != [] {
      NoResultsIsPaired(items[1..], NextRun(run, items[0]));
    }
  }

  lemma ContextIsSound(t: Texts, conversation: seq<Item>, input: Input, keepTail: bool)
    requires Paired(conversation)
    ensures var c := ContextOf(t, conversation, input, keepTail);
      PairedFrom(c.recent, {}) && (c.anchor.Some? ==> c.anchor.value.item.User?)
  {
    TailIsPaired(t, conversation);
  }

  lemma HistoryIsPaired(t: Texts, input: Input, c: Context)
    requires !input.system.ToolResult? && PairedFrom(c.recent, {}) && (c.anchor.Some? ==> c.anchor.value.item.User?)
    ensures PairedFrom(CompactedHistory(t, input, c), {})
  {
    var front := Prelude(input) + AnchorsOf(t, PlacedAnchor(c), c.lastQuery);
    NoResultsIsPaired(front, {});
    NoResultsIsPaired(Closing(t, input), {});
    PairedConcat(c.recent, Closing(t, input), {});
    PairedConcat(front, c.recent + Closing(t, input), {});
  }

  /** Compaction never orphans a tool result, with or without its tail. */
  lemma CompactIsPaired(t: Texts, conversation: seq<Item>, input: Input, keepTail: bool)
    requires Paired(conversation) && !input.system.ToolResult?
    ensures Paired(Compact(t, conversation, input, keepTail))
    ensures OrphanIds(Compact(t, conversation, input, keepTail), {}) == []
    ensures WithoutOrphans(Compact(t, conversation, input, keepTail), {}) == Compact(t, conversation, input, keepTail)
  {
    ContextIsSound(t, conversation, input, keepTail);
    HistoryIsPaired(t, input, ContextOf(t, conversation, input, keepTail));
    PairedByScan(Compact(t, conversation, input, keepTail));
    PairedValidates(Compact(t, conversation, input, keepTail));
  }

  // ---------- What a compacted history shows ----------

  ghost predicate NoUsers(items: seq<Item>) {
    forall i :: 0 <= i < |items| ==> !items[i].User?
  }

  lemma {:induction false} RetainDropsUsers(t: Texts, items: seq<Item>)
    requires NoAnchors(t, items)
    ensures NoUsers(Retain(items))
  {
    if items != [] {
      assert !Is(t, Either, items[0]);
      RetainDropsUsers(t, items[1..]);
    }
  }

  predicate IsLate(v: View) {
    v.anchor.Some? && !v.anchor.value.position.BeforeHuman?
  }

  /** The tail opens with the agent message exactly when that came after the last human turn. */
  lemma TailShape(t: Texts, conversation: seq<Item>)
    ensures var v, r := Scan(t, NOTHING, conversation), RecentMessages(t, conversation);
      if IsLate(v) then r != [] && r[0] == v.anchor.value.item && NoUsers(r[1..]) else NoUsers(r)
  {
    var last := LastIndex(t, conversation, Either);
    if last.None? {
      TailOfAll(t, conversation);
      ScanSkips(t, NOTHING, conversation);
      RetainDropsUsers(t, conversation);
    } else {
      var i := last.value;
      var front, item, rest := conversation[..i], conversation[i], conversation[i + 1..];
      assert conversation == front + ([item] + rest);
      assert NoAnchors(t, rest);
      ScanLast(t, front, item, rest);
      TailAfter(t, front, item, rest);
      RetainDropsUsers(t, rest);
      assert ([item] + Retain(rest))[1..] == Retain(rest);
    }
  }

  lemma ScanLast(t: Texts, front: seq<Item>, item: Item, rest: seq<Item>)
    requires NoAnchors(t, rest)
    ensures Scan(t, NOTHING, front + ([item] + rest)) == Look(t, Scan(t, NOTHING, front), item)
  {
    ScanConcat(t, NOTHING, front, [item] + rest);
    assert ([item] + rest)[1..] == rest;
    ScanSkips(t, Look(t, Scan(t, NOTHING, front), item), rest);
  }

  /** Where the anchor stands is fixed by whether a human query has been seen. */
  predicate IsCoherent(v: View) {
    v.anchor.Some? ==>
      IsAgentMessage(v.anchor.value.item) && (v.anchor.value.position.Only? <==> v.query.None?)
  }

  lemma {:induction false} ScanIsCoherent(t: Texts, v: View, items: seq<Item>)
    requires IsCoherent(v)
    ensures IsCoherent(Scan(t, v, items))
    decreases |items|
  {
    if items != [] {
      ScanIsCoherent(t, Look(t, v, items[0]), items[1..]);
    }
  }

  /** What one compaction makes of a view: the query is wrapped and read again. */
  function Rewritten(t: Texts, v: View): View {
    var query := match v.query
      case None => None
      case Some(q) => if t.synthetic(t.extract(t.wrap(q))) then None else Some(t.extract(t.wrap(q)));
    View(if v.anchor.Some? && query.None? then Some(v.anchor.value.(position := Only)) else v.anchor, query)
  }

  lemma QueryItemReads(t: Texts, q: string)
    ensures QueryOf(t, QueryItem(t, q)) == t.extract(t.wrap(q))
    ensures IsRealUserTurn(t, QueryItem(t, q)) <==> !t.synthetic(t.extract(t.wrap(q)))
  {
    assert JoinedText([TextPart(t.wrap(q))]) == t.wrap(q);
  }

  lemma ScanAnchors(t: Texts, v: View)
    requires IsCoherent(v)
    ensures Scan(t, NOTHING, AnchorsOf(t, v.anchor, v.query)) == Rewritten(t, v)
  {
    if v.query.Some? {
      QueryItemReads(t, v.query.value);
    }
    var items := AnchorsOf(t, v.anchor, v.query);
    assert |items| <= 2;
    if |items| == 1 {
      assert items[1..] == [];
    } else if |items| == 2 {
      var w := Look(t, NOTHING, items[0]);
      assert items[1..] == [items[1]] && items[1..][1..] == [];
      assert Scan(t, w, items[1..]) == Look(t, w, items[1]);
    }
  }

  lemma PreludeHasNoAnchors(t: Texts, input: Input)
    requires input.system.System?
    ensures NoAnchors(t, Prelude(input)) && NoAnchors(t, Closing(t, input))
  {
  }

  lemma {:induction false} NoUsersIsNoAnchors(t: Texts, items: seq<Item>)
    requires NoUsers(items)
    ensures NoAnchors(t, items) && !HasAgentMessage(items)
  {
    forall i | 0 <= i < |items| ensures !Is(t, Either, items[i]) {
      assert !items[i].User?;
    }
  }

  lemma ScanFrame(t: Texts, input: Input, anchors: seq<Item>, recent: seq<Item>)
    requires input.system.System?
    ensures Scan(t, NOTHING, (Prelude(input) + anchors) + (recent + Closing(t, input)))
         == Scan(t, Scan(t, NOTHING, anchors), recent)
  {
    PreludeHasNoAnchors(t, input);
    ScanConcat(t, NOTHING, Prelude(input) + anchors, recent + Closing(t, input));
    ScanConcat(t, NOTHING, Prelude(input), anchors);
    ScanSkips(t, NOTHING, Prelude(input));
    var v := Scan(t, NOTHING, anchors);
    ScanConcat(t, v, recent, Closing(t, input));
    ScanSkips(t, Scan(t, v, recent), Closing(t, input));
  }

  /** The law of one compaction, for every conversation, input and mode. */
  lemma CompactRewritesView(t: Texts, conversation: seq<Item>, input: Input, keepTail: bool)
    requires input.system.System?
    ensures Scan(t, NOTHING, Compact(t, conversation, input, keepTail)) == Rewritten(t, Scan(t, NOTHING, conversation))
  {
    var c := ContextOf(t, conversation, input, keepTail);
    var v := Scan(t, NOTHING, conversation);
    var r := RecentMessages(t, conversation);
    ScanFindsAnchors(t, conversation);
    ScanIsCoherent(t, NOTHING, conversation);
    TailShape(t, conversation);
    ScanFrame(t, input, AnchorsOf(t, PlacedAnchor(c), c.lastQuery), c.recent);
    if keepTail && IsLate(v) {
      assert IsAgentMessage(r[0]);
      assert PlacedAnchor(c) == None;
      ScanAnchors(t, View(None, v.query));
      NoUsersIsNoAnchors(t, r[1..]);
      ScanSkips(t, Look(t, Rewritten(t, View(None, v.query)), r[0]), r[1..]);
    } else {
      if keepTail || v.anchor.None? {
        NoUsersIsNoAnchors(t, r);
      }
      DroppedTailHasNoAnchor(t, conversation, input);
      ScanAnchors(t, v);
      NoUsersIsNoAnchors(t, c.recent);
      ScanSkips(t, Rewritten(t, v), c.recent);
    }
  }

  /** The fallback search of `for_compaction` finds nothing the first search missed. */
  lemma DroppedTailHasNoAnchor(t: Texts, conversation: seq<Item>, input: Input)
    ensures ForCompaction(t, BuildContext(t, conversation, input)).anchor == LatestAgentMessage(t, conversation)
  {
    ScanFindsAnchors(t, conversation);
    TailShape(t, conversation);
    if LatestAgentMessage(t, conversation).None? {
      NoUsersIsNoAnchors(t, RecentMessages(t, conversation));
    }
  }

  // ---------- Any number of compactions ----------

  datatype Event = Append(items: seq<Item>) | Compaction(input: Input, keepTail: bool)

  ghost predicate IsEvent(e: Event) {
    e.Compaction? ==> e.input.system.System?
  }

  ghost predicate AreEvents(events: seq<Event>) {
    forall i :: 0 <= i < |events| ==> IsEvent(events[i])
  }

  /** The conversation after a run of appends and compactions. */
  function Replay(t: Texts, conversation: seq<Item>, events: seq<Event>): seq<Item>
    decreases |events|
  {
    if events == [] then conversation
    else match events[0]
      case Append(items) => Replay(t, conversation + items, events[1..])
      case Compaction(input, keepTail) => Replay(t, Compact(t, conversation, input, keepTail), events[1..])
  }

  /** What the same run would hold if nothing were ever compacted. */
  function Transcript(conversation: seq<Item>, events: seq<Event>): seq<Item>
    decreases |events|
  {
    if events == [] then conversation
    else Transcript(if events[0].Append? then conversation + events[0].items else conversation, events[1..])
  }

  function AgentOf(v: View): Option<Item> {
    match v.anchor case None => None case Some(a) => Some(a.item)
  }

  lemma {:induction false} ScanAgent(t: Texts, v: View, w: View, items: seq<Item>)
    requires AgentOf(v) == AgentOf(w)
    ensures AgentOf(Scan(t, v, items)) == AgentOf(Scan(t, w, items))
    decreases |items|
  {
    if items != [] {
      ScanAgent(t, Look(t, v, items[0]), Look(t, w, items[0]), items[1..]);
    }
  }

  /** However often the history is compacted, its latest agent message is that of the full transcript. */
  lemma {:induction false} RunKeepsAgentMessage(t: Texts, actual: seq<Item>, full: seq<Item>, events: seq<Event>)
    requires AreEvents(events)
    requires AgentOf(Scan(t, NOTHING, actual)) == AgentOf(Scan(t, NOTHING, full))
    ensures AgentOf(Scan(t, NOTHING, Replay(t, actual, events))) == AgentOf(Scan(t, NOTHING, Transcript(full, events)))
    decreases |events|
  {
    if events != [] {
      assert IsEvent(events[0]);
      match events[0]
      case Append(items) =>
        ScanConcat(t, NOTHING, actual, items);
        ScanConcat(t, NOTHING, full, items);
        ScanAgent(t, Scan(t, NOTHING, actual), Scan(t, NOTHING, full), items);
        RunKeepsAgentMessage(t, actual + items, full + items, events[1..]);
      case Compaction(input, keepTail) =>
        CompactRewritesView(t, actual, input, keepTail);
        RunKeepsAgentMessage(t, Compact(t, actual, input, keepTail), full, events[1..]);
    }
  }

  /** A query that is read back as it was written, and is not taken for a synthetic one. */
  predicate IsStable(t: Texts, q: string) {
    t.extract(t.wrap(q)) == q && !t.synthetic(q)
  }

  predicate IsSteady(t: Texts, v: View) {
    v.query.Some? ==> IsStable(t, v.query.value)
  }

  /** Every human turn in `items` carries such a query. */
  ghost predicate HumansAreStable(t: Texts, items: seq<Item>) {
    forall i :: 0 <= i < |items| && IsRealUserTurn(t, items[i]) ==> IsStable(t, QueryOf(t, items[i]))
  }

  lemma {:induction false} ScanIsSteady(t: Texts, v: View, items: seq<Item>)
    requires IsSteady(t, v) && HumansAreStable(t, items)
    ensures IsSteady(t, Scan(t, v, items))
    decreases |items|
  {
    if items != [] {
      ScanIsSteady(t, Look(t, v, items[0]), items[1..]);
    }
  }

  ghost predicate AppendsAreStable(t: Texts, events: seq<Event>) {
    forall i :: 0 <= i < |events| && events[i].Append? ==> HumansAreStable(t, events[i].items)
  }

  /** ... and with stable queries the whole view is kept: message, query and which came first. */
  lemma {:induction false} RunKeepsView(t: Texts, actual: seq<Item>, full: seq<Item>, events: seq<Event>)
    requires AreEvents(events) && AppendsAreStable(t, events)
    requires Scan(t, NOTHING, actual) == Scan(t, NOTHING, full) && IsSteady(t, Scan(t, NOTHING, full))
    ensures Scan(t, NOTHING, Replay(t, actual, events)) == Scan(t, NOTHING, Transcript(full, events))
    decreases |events|
  {
    if events != [] {
      assert IsEvent(events[0]);
      match events[0]
      case Append(items) =>
        ScanConcat(t, NOTHING, actual, items);
        ScanConcat(t, NOTHING, full, items);
        assert HumansAreStable(t, items);
        ScanIsSteady(t, Scan(t, NOTHING, full), items);
        RunKeepsView(t, actual + items, full + items, events[1..]);
      case Compaction(input, keepTail) =>
        CompactRewritesView(t, actual, input, keepTail);
        ScanIsCoherent(t, NOTHING, actual);
        RunKeepsView(t, Compact(t, actual, input, keepTail), full, events[1..]);
    }
  }

  /** The searches of the next compaction therefore find what they would find in the transcript. */
  lemma CompactionsAreTransparent(t: Texts, conversation: seq<Item>, events: seq<Event>)
    requires AreEvents(events) && AppendsAreStable(t, events) && HumansAreStable(t, conversation)
    ensures LatestAgentMessage(t, Replay(t, conversation, events))
      == LatestAgentMessage(t, Transcript(conversation, events))
    ensures LastRealUserQuery(t, Replay(t, conversation, events))
      == LastRealUserQuery(t, Transcript(conversation, events))
  {
    ScanIsSteady(t, NOTHING, conversation);
    RunKeepsView(t, conversation, conversation, events);
    ScanFindsAnchors(t, Replay(t, conversation, events));
    ScanFindsAnchors(t, Transcript(conversation, events));
  }

  /** Tool pairing survives every run whose appended pieces are paired. */
  lemma {:induction false} RunKeepsPairing(t: Texts, conversation: seq<Item>, events: seq<Event>)
    requires Paired(conversation) && AreEvents(events)
    requires forall i :: 0 <= i < |events| && events[i].Append? ==> Paired(events[i].items)
    ensures Paired(Replay(t, conversation, events))
    decreases |events|
  {
    if events != [] {
      assert IsEvent(events[0]);
      match events[0]
      case Append(items) =>
        assert Paired(items);
        PairedByScan(conversation);
        PairedByScan(items);
        PairedByScan(conversation + items);
        PairedConcat(conversation, items, {});
        RunKeepsPairing(t, conversation + items, events[1..]);
      case Compaction(input, keepTail) =>
        CompactIsPaired(t, conversation, input, keepTail);
        RunKeepsPairing(t, Compact(t, conversation, input, keepTail), events[1..]);
    }
  }

  // ---------- Exactly one agent message, on its own side of the query ----------

  function CountAgents(items: seq<Item>): nat {
    if items == [] then 0 else (if IsAgentMessage(items[0]) then 1 else 0) + CountAgents(items[1..])
  }

  lemma {:induction false} CountConcat(a: seq<Item>, b: seq<Item>)
    ensures CountAgents(a + b) == CountAgents(a) + CountAgents(b)
  {
    if a == [] {
      assert a + b == b;
    } else {
      assert (a + b)[1..] == a[1..] + b;
      CountConcat(a[1..], b);
    }
  }

  lemma {:induction false} CountNone(t: Texts, items: seq<Item>)
    requires NoAnchors(t, items)
    ensures CountAgents(items) == 0
  {
    if items != [] {
      assert !Is(t, Either, items[0]);
      CountNone(t, items[1..]);
    }
  }

  lemma CountAnchors(t: Texts, v: View)
    requires IsCoherent(v)
    ensures CountAgents(AnchorsOf(t, v.anchor, v.query)) == if v.anchor.Some? then 1 else 0
  {
    var items := AnchorsOf(t, v.anchor, v.query);
    assert |items| <= 2;
    if |items| == 2 {
      assert items == [items[0]] + [items[1]];
      CountConcat([items[0]], [items[1]]);
    }
  }

  /** A compacted history holds the latest agent message once, and no other. */
  lemma CompactHasOneAgentMessage(t: Texts, conversation: seq<Item>, input: Input, keepTail: bool)
    requires input.system.System?
    ensures CountAgents(Compact(t, conversation, input, keepTail)) ==
            if LatestAgentMessage(t, conversation).Some? then 1 else 0
    ensures LatestAgentMessage(t, conversation).Some? ==>
            LatestAgentMessage(t, conversation).value.item in Compact(t, conversation, input, keepTail)
  {
    var c := ContextOf(t, conversation, input, keepTail);
    var v := Scan(t, NOTHING, conversation);
    var r := RecentMessages(t, conversation);
    var anchors := AnchorsOf(t, PlacedAnchor(c), c.lastQuery);
    ScanFindsAnchors(t, conversation);
    ScanIsCoherent(t, NOTHING, conversation);
    TailShape(t, conversation);
    DroppedTailHasNoAnchor(t, conversation, input);
    PreludeHasNoAnchors(t, input);
    CountNone(t, Prelude(input));
    CountNone(t, Closing(t, input));
    CountConcat(Prelude(input) + anchors, c.recent + Closing(t, input));
    CountConcat(Prelude(input), anchors);
    CountConcat(c.recent, Closing(t, input));
    if keepTail && IsLate(v) {
      assert IsAgentMessage(r[0]);
      CountAnchors(t, View(None, v.query));
      NoUsersIsNoAnchors(t, r[1..]);
      CountNone(t, r[1..]);
      assert v.anchor.value.item in c.recent + Closing(t, input);
    } else {
      assert v.anchor.Some? ==> v.anchor.value.item in anchors;
      CountAnchors(t, v);
      NoUsersIsNoAnchors(t, c.recent);
      CountNone(t, c.recent);
    }
  }

  // ---------- Compacting twice ----------

  ghost predicate WrapIsInjective(t: Texts) {
    forall p, q :: t.wrap(p) == t.wrap(q) ==> p == q
  }

  lemma SameAnchors(t: Texts, v: View)
    requires IsCoherent(v) && WrapIsInjective(t)
    ensures var w := Rewritten(t, v);
      AnchorsOf(t, w.anchor, w.query) == AnchorsOf(t, v.anchor, v.query) <==> IsSteady(t, v)
  {
    if v.query.Some? {
      var w := Rewritten(t, v);
      var before, after := AnchorsOf(t, v.anchor, v.query), AnchorsOf(t, w.anchor, w.query);
      var at := if v.anchor.Some? && v.anchor.value.position.BeforeHuman? then 1 else 0;
      assert before[at] == QueryItem(t, v.query.value);
      if w.query.Some? {
        assert after[at] == QueryItem(t, w.query.value);
      } else {
        assert |after| < |before|;
      }
    }
  }

  lemma Cancel<T>(p: seq<T>, a: seq<T>, b: seq<T>, c: seq<T>)
    ensures (p + a) + c == (p + b) + c <==> a == b
  {
    if (p + a) + c == (p + b) + c {
      assert a == ((p + a) + c)[|p|..|p| + |a|];
      assert b == ((p + b) + c)[|p|..|p| + |b|];
    }
  }

  lemma TwiceWithoutTail(t: Texts, conversation: seq<Item>, input: Input)
    requires input.system.System? && WrapIsInjective(t)
    ensures var once := Compact(t, conversation, input, false);
      Compact(t, once, input, false) == once <==> IsSteady(t, Scan(t, NOTHING, conversation))
  {
    var once := Compact(t, conversation, input, false);
    var v := Scan(t, NOTHING, conversation);
    ScanFindsAnchors(t, conversation);
    ScanFindsAnchors(t, once);
    ScanIsCoherent(t, NOTHING, conversation);
    DroppedTailHasNoAnchor(t, conversation, input);
    DroppedTailHasNoAnchor(t, once, input);
    CompactRewritesView(t, conversation, input, false);
    SameAnchors(t, v);
    var w := Rewritten(t, v);
    Cancel(Prelude(input), AnchorsOf(t, w.anchor, w.query), AnchorsOf(t, v.anchor, v.query), [] + Closing(t, input));
  }

  // The same with the tail kept: the tail of a compacted history is the tail it was built from.

  lemma {:induction false} RetainConcat(a: seq<Item>, b: seq<Item>)
    ensures Retain(a + b) == Retain(a) + Retain(b)
  {
    if a == [] {
      assert a + b == b;
    } else {
      assert (a + b)[1..] == a[1..] + b;
      RetainConcat(a[1..], b);
      Assoc(Retained(a[0]), Retain(a[1..]), Retain(b));
    }
  }

  lemma {:induction false} RetainTwice(items: seq<Item>)
    ensures Retain(Retain(items)) == Retain(items)
  {
    if items != [] {
      RetainTwice(items[1..]);
      RetainConcat(Retained(items[0]), Retain(items[1..]));
      var kept := Retained(items[0]);
      if kept != [] {
        assert kept[1..] == [];
        assert Retained(kept[0]) == kept;
      }
    }
  }

  predicate IsDropped(item: Item) { Retained(item) == [] }

  lemma {:induction false} RetainNothing(items: seq<Item>)
    requires forall i :: 0 <= i < |items| ==> IsDropped(items[i])
    ensures Retain(items) == []
  {
    if items != [] {
      RetainNothing(items[1..]);
    }
  }

  lemma FrameIsDropped(t: Texts, input: Input)
    requires input.system.System?
    ensures Retain(Prelude(input)) == [] && Retain(Closing(t, input)) == []
  {
    RetainNothing(Prelude(input));
    RetainNothing(Closing(t, input));
  }

  /** The tail of a history whose last anchor is known. */
  lemma TailAfter(t: Texts, front: seq<Item>, item: Item, rest: seq<Item>)
    requires Is(t, Either, item) && NoAnchors(t, rest)
    ensures RecentMessages(t, front + ([item] + rest))
         == if IsAgentMessage(item) then [item] + Retain(rest) else Retain(rest)
  {
    var all, n := front + ([item] + rest), |front|;
    assert all[n] == item;
    forall i | n < i < |all| ensures !Is(t, Either, all[i]) {
      assert all[i] == rest[i - n - 1];
    }
    assert LastIndex(t, all, Either) == Some(n);
    assert all[n..] == [item] + rest && all[n + 1..] == rest;
    assert ([item] + rest)[1..] == rest;
  }

  lemma TailOfAll(t: Texts, items: seq<Item>)
    requires NoAnchors(t, items)
    ensures RecentMessages(t, items) == Retain(items)
  {
    assert items[0..] == items;
  }

  lemma RestHasNoAnchors(t: Texts, input: Input, rest: seq<Item>)
    requires input.system.System? && NoUsers(rest)
    ensures NoAnchors(t, rest + Closing(t, input))
  {
    PreludeHasNoAnchors(t, input);
    NoUsersIsNoAnchors(t, rest);
  }

  /** The tail is made of what retaining leaves alone. */
  lemma RecentIsRetained(t: Texts, conversation: seq<Item>, input: Input)
    requires input.system.System?
    ensures var r := RecentMessages(t, conversation); Retain(r) == r && Retain(r + Closing(t, input)) == r
  {
    var r := RecentMessages(t, conversation);
    RetainTwice(conversation[TailStart(t, conversation)..]);
    FrameIsDropped(t, input);
    RetainConcat(r, Closing(t, input));
    assert r + [] == r;
  }

  /** A tail that carries the agent message is found again as it is. */
  lemma LateTailStays(t: Texts, conversation: seq<Item>, input: Input)
    requires input.system.System? && IsLate(Scan(t, NOTHING, conversation))
    ensures var v, r := Scan(t, NOTHING, conversation), RecentMessages(t, conversation);
      && Compact(t, conversation, input, true)
         == (Prelude(input) + AnchorsOf(t, None, v.query)) + (r + Closing(t, input))
      && RecentMessages(t, Compact(t, conversation, input, true)) == r && HasAgentMessage(r)
  {
    var v, r := Scan(t, NOTHING, conversation), RecentMessages(t, conversation);
    ScanFindsAnchors(t, conversation);
    ScanIsCoherent(t, NOTHING, conversation);
    TailShape(t, conversation);
    RecentIsRetained(t, conversation, input);
    var rest := r[1..];
    assert r == [r[0]] + rest && IsAgentMessage(r[0]);
    RestHasNoAnchors(t, input, rest);
    Assoc([r[0]], rest, Closing(t, input));
    TailAfter(t, Prelude(input) + AnchorsOf(t, None, v.query), r[0], rest + Closing(t, input));
    assert ([r[0]] + (rest + Closing(t, input)))[1..] == rest + Closing(t, input);
    assert Retain([r[0]] + (rest + Closing(t, input))) == [r[0]] + Retain(rest + Closing(t, input));
  }

  lemma TwiceLate(t: Texts, conversation: seq<Item>, input: Input)
    requires input.system.System? && WrapIsInjective(t) && IsLate(Scan(t, NOTHING, conversation))
    ensures var once := Compact(t, conversation, input, true);
      Compact(t, once, input, true) == once <==> IsSteady(t, Scan(t, NOTHING, conversation))
  {
    var once := Compact(t, conversation, input, true);
    var v, r := Scan(t, NOTHING, conversation), RecentMessages(t, conversation);
    LateTailStays(t, conversation, input);
    CompactRewritesView(t, conversation, input, true);
    ScanFindsAnchors(t, once);
    var w := Rewritten(t, v);
    SameAnchors(t, View(None, v.query));
    Cancel(Prelude(input), AnchorsOf(t, None, w.query), AnchorsOf(t, None, v.query), r + Closing(t, input));
  }

  lemma Regroup<T>(p: seq<T>, a: seq<T>, q: T, c: seq<T>)
    ensures (p + (a + [q])) + c == (p + a) + ([q] + c)
  {
    Assoc(p, a, [q]);
    Assoc(p + a, [q], c);
  }

  /** Without such a message all anchors stand in front of the tail, the query last. */
  lemma EarlyShape(t: Texts, conversation: seq<Item>, input: Input)
    requires !IsLate(Scan(t, NOTHING, conversation))
    ensures var v, r := Scan(t, NOTHING, conversation), RecentMessages(t, conversation);
      && Compact(t, conversation, input, true)
         == (Prelude(input) + AnchorsOf(t, v.anchor, v.query)) + (r + Closing(t, input))
      && NoUsers(r) && !HasAgentMessage(r)
      && (v.query.None? ==> AnchorsOf(t, v.anchor, v.query) == [])
  {
    ScanFindsAnchors(t, conversation);
    ScanIsCoherent(t, NOTHING, conversation);
    TailShape(t, conversation);
    NoUsersIsNoAnchors(t, RecentMessages(t, conversation));
  }

  function Before(v: View): seq<Item> { if v.anchor.Some? then [v.anchor.value.item] else [] }

  lemma EarlyAnchors(t: Texts, v: View)
    requires !IsLate(v) && v.query.Some?
    ensures AnchorsOf(t, v.anchor, v.query) == Before(v) + [QueryItem(t, v.query.value)]
  {
  }

  /** The tail of a history without anchors, or behind its last anchor. */
  lemma TailOfFrame(t: Texts, input: Input, r: seq<Item>)
    requires input.system.System? && NoUsers(r) && Retain(r + Closing(t, input)) == r
    ensures RecentMessages(t, Prelude(input) + (r + Closing(t, input))) == r
  {
    PreludeHasNoAnchors(t, input);
    FrameIsDropped(t, input);
    RestHasNoAnchors(t, input, r);
    TailOfAll(t, Prelude(input) + (r + Closing(t, input)));
    RetainConcat(Prelude(input), r + Closing(t, input));
  }

  /** The tail is found again, if the query is still read as one. */
  lemma EarlyTailStays(t: Texts, conversation: seq<Item>, input: Input)
    requires input.system.System? && !IsLate(Scan(t, NOTHING, conversation))
    requires var v := Scan(t, NOTHING, conversation); Rewritten(t, v).query.Some? || v.query.None?
    ensures RecentMessages(t, Compact(t, conversation, input, true)) == RecentMessages(t, conversation)
  {
    var v, r := Scan(t, NOTHING, conversation), RecentMessages(t, conversation);
    EarlyShape(t, conversation, input);
    RecentIsRetained(t, conversation, input);
    if v.query.None? {
      assert Prelude(input) + [] == Prelude(input);
      TailOfFrame(t, input, r);
    } else {
      var q := v.query.value;
      QueryItemReads(t, q);
      EarlyAnchors(t, v);
      RestHasNoAnchors(t, input, r);
      Regroup(Prelude(input), Before(v), QueryItem(t, q), r + Closing(t, input));
      TailAfter(t, Prelude(input) + Before(v), QueryItem(t, q), r + Closing(t, input));
    }
  }

  /** A query item not read as a query is dropped from the tail like other user items. */
  lemma LostQueryIsDropped(t: Texts, input: Input, q: string, r: seq<Item>)
    requires input.system.System? && t.synthetic(t.extract(t.wrap(q))) && NoUsers(r)
    ensures var rest := [QueryItem(t, q)] + (r + Closing(t, input));
      NoAnchors(t, rest) && Retain(rest) == Retain(r + Closing(t, input))
  {
    QueryItemReads(t, q);
    RestHasNoAnchors(t, input, r);
    RetainNothing([QueryItem(t, q)]);
    RetainConcat([QueryItem(t, q)], r + Closing(t, input));
    assert [] + Retain(r + Closing(t, input)) == Retain(r + Closing(t, input));
  }

  /** What the second compaction keeps when the query is no longer read as one: the agent message moves
      into the tail. */
  lemma LostQueryTail(t: Texts, input: Input, v: View, r: seq<Item>)
    requires input.system.System? && !IsLate(v) && IsCoherent(v) && v.query.Some? && Rewritten(t, v).query.None?
    requires NoUsers(r) && Retain(r + Closing(t, input)) == r
    ensures RecentMessages(t, (Prelude(input) + AnchorsOf(t, v.anchor, v.query)) + (r + Closing(t, input)))
      == Before(v) + r
  {
    var q := QueryItem(t, v.query.value);
    var rest := [q] + (r + Closing(t, input));
    EarlyAnchors(t, v);
    LostQueryIsDropped(t, input, v.query.value, r);
    Regroup(Prelude(input), Before(v), q, r + Closing(t, input));
    if v.anchor.Some? {
      Assoc(Prelude(input), Before(v), rest);
      TailAfter(t, Prelude(input), v.anchor.value.item, rest);
    } else {
      assert Prelude(input) + Before(v) == Prelude(input);
      LostQueryAlone(t, input, rest);
    }
  }

  lemma LostQueryAlone(t: Texts, input: Input, rest: seq<Item>)
    requires input.system.System? && NoAnchors(t, rest)
    ensures RecentMessages(t, Prelude(input) + rest) == Retain(rest)
  {
    PreludeHasNoAnchors(t, input);
    FrameIsDropped(t, input);
    TailOfAll(t, Prelude(input) + rest);
    RetainConcat(Prelude(input), rest);
  }

  /** A query no longer read as one is dropped the second time. */
  lemma LostQueryShortens(t: Texts, conversation: seq<Item>, input: Input)
    requires input.system.System? && !IsLate(Scan(t, NOTHING, conversation))
    requires var v := Scan(t, NOTHING, conversation); v.query.Some? && Rewritten(t, v).query.None?
    ensures var once := Compact(t, conversation, input, true); |Compact(t, once, input, true)| < |once|
  {
    var v, r := Scan(t, NOTHING, conversation), RecentMessages(t, conversation);
    var once := Compact(t, conversation, input, true);
    ScanIsCoherent(t, NOTHING, conversation);
    EarlyShape(t, conversation, input);
    RecentIsRetained(t, conversation, input);
    LostQueryTail(t, input, v, r);
    EarlyAnchors(t, v);
    CompactRewritesView(t, conversation, input, true);
    ScanFindsAnchors(t, once);
    var c := ContextOf(t, once, input, true);
    assert c.recent == Before(v) + r && c.lastQuery == None;
    NothingToPlace(t, v, r, c);
  }

  lemma NothingToPlace(t: Texts, v: View, r: seq<Item>, c: Context)
    requires IsCoherent(v) && c.recent == Before(v) + r && c.lastQuery == None && (v.anchor.None? ==> c.anchor.None?)
    ensures AnchorsOf(t, PlacedAnchor(c), c.lastQuery) == []
  {
    if v.anchor.Some? {
      assert IsAgentMessage(c.recent[0]);
    }
  }

  lemma TwiceEarly(t: Texts, conversation: seq<Item>, input: Input)
    requires input.system.System? && WrapIsInjective(t) && !IsLate(Scan(t, NOTHING, conversation))
    ensures var once := Compact(t, conversation, input, true);
      Compact(t, once, input, true) == once <==> IsSteady(t, Scan(t, NOTHING, conversation))
  {
    var once := Compact(t, conversation, input, true);
    var v, r := Scan(t, NOTHING, conversation), RecentMessages(t, conversation);
    var w := Rewritten(t, v);
    if v.query.Some? && w.query.None? {
      LostQueryShortens(t, conversation, input);
    } else {
      EarlyShape(t, conversation, input);
      EarlyTailStays(t, conversation, input);
      CompactRewritesView(t, conversation, input, true);
      ScanFindsAnchors(t, once);
      ScanIsCoherent(t, NOTHING, conversation);
      SameAnchors(t, v);
      Cancel(Prelude(input), AnchorsOf(t, w.anchor, w.query), AnchorsOf(t, v.anchor, v.query), r + Closing(t, input));
    }
  }

  /** Compacting again with the same input returns the same history, with or without its tail, exactly
      when there is no human query, or it is read back unchanged and is not taken for a synthetic one. */
  lemma CompactTwice(t: Texts, conversation: seq<Item>, input: Input, keepTail: bool)
    requires input.system.System? && WrapIsInjective(t)
    ensures var once := Compact(t, conversation, input, keepTail);
      Compact(t, once, input, keepTail) == once <==>
        (LastRealUserQuery(t, conversation).Some? ==> IsStable(t, LastRealUserQuery(t, conversation).value))
  {
    ScanFindsAnchors(t, conversation);
    if !keepTail {
      TwiceWithoutTail(t, conversation, input);
    } else if IsLate(Scan(t, NOTHING, conversation)) {
      TwiceLate(t, conversation, input);
    } else {
      TwiceEarly(t, conversation, input);
    }
  }

  // ---------- Compacting until nothing changes ----------

  function Iterate<T>(f: T -> T, x: T, n: nat): T
    decreases n
  {
    if n == 0 then x else Iterate(f, f(x), n - 1)
  }

  lemma {:induction false} FixedStays<T>(f: T -> T, x: T, n: nat)
    requires f(x) == x
    ensures Iterate(f, x, n) == x
  {
    if n > 0 {
      FixedStays(f, x, n - 1);
    }
  }

  /** If each step reaches a fixed point or shrinks a measure, more steps than the measure reach one. */
  lemma {:induction false} Converges<T>(f: T -> T, size: T -> nat, x: T, n: nat)
    requires forall y :: f(f(y)) == f(y) || size(f(y)) < size(y)
    requires n > size(x)
    ensures f(Iterate(f, x, n)) == Iterate(f, x, n)
    decreases n
  {
    if f(f(x)) == f(x) {
      FixedStays(f, f(x), n - 1);
    } else {
      Converges(f, size, f(x), n - 1);
    }
  }

  /** Wrapping and extracting never lengthens a query, and changes its length if it changes it. */
  ghost predicate ExtractShrinks(t: Texts) {
    forall q :: |t.extract(t.wrap(q))| <= |q| && (|t.extract(t.wrap(q))| == |q| ==> t.extract(t.wrap(q)) == q)
  }

  function QuerySize(query: Option<string>): nat { if query.None? then 0 else |query.value| + 1 }

  lemma RewritingShrinks(t: Texts, v: View)
    requires ExtractShrinks(t)
    ensures IsSteady(t, v) || QuerySize(Rewritten(t, v).query) < QuerySize(v.query)
  {
    if v.query.Some? {
      var q := t.extract(t.wrap(v.query.value));
      assert |q| <= |v.query.value|;
    }
  }

  /** A compaction reaches a fixed point, or leaves a smaller query to read. */
  lemma CompactStep(t: Texts, conversation: seq<Item>, input: Input, keepTail: bool)
    requires input.system.System? && WrapIsInjective(t) && ExtractShrinks(t)
    ensures var once := Compact(t, conversation, input, keepTail);
      || Compact(t, once, input, keepTail) == once
      || QuerySize(LastRealUserQuery(t, once)) < QuerySize(LastRealUserQuery(t, conversation))
  {
    ScanFindsAnchors(t, conversation);
    ScanFindsAnchors(t, Compact(t, conversation, input, keepTail));
    CompactTwice(t, conversation, input, keepTail);
    RewritingShrinks(t, Scan(t, NOTHING, conversation));
    CompactRewritesView(t, conversation, input, keepTail);
  }

  function Compactor(t: Texts, input: Input, keepTail: bool): seq<Item> -> seq<Item> {
    items => Compact(t, items, input, keepTail)
  }

  /** Whatever the query, repeated compaction reaches a fixed point: after two compactions more than the
      query has characters at the latest, and after one when there is no query. */
  lemma CompactionConverges(t: Texts, conversation: seq<Item>, input: Input, keepTail: bool, n: nat)
    requires input.system.System? && WrapIsInjective(t) && ExtractShrinks(t)
    requires n > QuerySize(LastRealUserQuery(t, conversation))
    ensures var last := Iterate(Compactor(t, input, keepTail), conversation, n);
      Compact(t, last, input, keepTail) == last
  {
    var f := Compactor(t, input, keepTail);
    var size := (items: seq<Item>) => QuerySize(LastRealUserQuery(t, items));
    forall y: seq<Item> ensures f(f(y)) == f(y) || size(f(y)) < size(y) {
      CompactStep(t, y, input, keepTail);
    }
    Converges(f, size, conversation, n);
  }
}
