/** The conversation items the compaction, repair and image-budget passes rewrite. */
module Conversation {
  import opened Text

  datatype SyntheticReason =
    | CompactionMeta | SystemReminder | LengthContinue | ProjectInstructions | AutoContinue | AutoRecovery
    | Interjection | AgentMessage | TaskCompleted | SubagentCompleted | NotificationDrain | GoalSummary
    | GoalClassifierNudge | SchedulerFired | StopHookFeedback | WorkingDirectorySwitch | Unknown

  datatype PriorTurnInterrupt = MidTurnAbort | PermissionRejected | PermissionCancelled | UnknownInterrupt

  datatype Part = TextPart(text: string) | Image(url: string)

  datatype ToolCall = ToolCall(id: string, name: string, arguments: string)

  /** Structural metadata of a user item that no pass here looks at. */
  datatype UserMeta = UserMeta(
    cwdGeneration: Option<nat>, interrupt: Option<PriorTurnInterrupt>, promptIndex: Option<nat>)

  /** Provenance of an assistant item, likewise only carried along. */
  datatype ModelMeta = ModelMeta(modelId: Option<string>, fingerprint: Option<string>, effort: Option<string>)

  datatype Item =
    | System(content: string)
    | User(parts: seq<Part>, reason: Option<SyntheticReason>, meta: UserMeta)
    | Assistant(content: string, calls: seq<ToolCall>, model: ModelMeta)
    | ToolResult(callId: string, content: string, images: seq<Part>)
    | BackendToolCall(payload: string)
    | Reasoning(payload: string)

  const NO_META := UserMeta(None, None, None)

  function UserText(text: string, reason: Option<SyntheticReason>): Item {
    User([TextPart(text)], reason, NO_META)
  }

  predicate IsAgentMessage(item: Item) {
    item.User? && item.reason == Some(AgentMessage)
  }

  function CallIds(calls: seq<ToolCall>): set<string> {
    if calls == [] then {} else {calls[0].id} + CallIds(calls[1..])
  }

  lemma {:induction false} CallIdsHolds(calls: seq<ToolCall>, id: string)
    ensures id in CallIds(calls) <==> exists i :: 0 <= i < |calls| && calls[i].id == id
  {
    if calls != [] {
      CallIdsHolds(calls[1..], id);
      if i :| 0 <= i < |calls| && calls[i].id == id {
        assert i > 0 ==> calls[1..][i - 1] == calls[i];
      }
    }
  }

  /** The ids an item declares; only assistants declare any. */
  function Declared(item: Item): set<string> {
    if item.Assistant? then CallIds(item.calls) else {}
  }

  function JoinedText(parts: seq<Part>): string {
    if parts == [] then []
    else if parts[0].Image? then JoinedText(parts[1..])
    else if forall p :: p in parts[1..] ==> p.Image? then parts[0].text
    else parts[0].text + "\n" + JoinedText(parts[1..])
  }

  predicate HasText(parts: seq<Part>) { exists i :: 0 <= i < |parts| && parts[i].TextPart? }

  lemma JoinedTextOne(p: Part)
    ensures JoinedText([p]) == if p.Image? then [] else p.text
  {
    assert [p][1..] == [];
  }

  lemma HasTextRest(parts: seq<Part>)
    requires parts != []
    ensures HasText(parts) <==> parts[0].TextPart? || HasText(parts[1..])
    ensures HasText(parts[1..]) <==> !(forall p :: p in parts[1..] ==> p.Image?)
  {
    var rest := parts[1..];
    if i :| 0 <= i < |parts| && parts[i].TextPart? {
      assert i > 0 ==> rest[i - 1].TextPart?;
    }
    if j :| 0 <= j < |rest| && rest[j].TextPart? {
      assert parts[j + 1].TextPart? && rest[j] in rest;
    }
    forall p | p in rest && !p.Image? ensures HasText(rest) {
      var k :| 0 <= k < |rest| && rest[k] == p;
    }
  }

  lemma {:induction false} NoTextIsEmpty(parts: seq<Part>)
    requires !HasText(parts)
    ensures JoinedText(parts) == []
  {
    if parts != [] {
      HasTextRest(parts);
      NoTextIsEmpty(parts[1..]);
    }
  }

  lemma HasTextConcat(a: seq<Part>, b: seq<Part>)
    ensures HasText(a + b) <==> HasText(a) || HasText(b)
  {
    var all := a + b;
    if i :| 0 <= i < |all| && all[i].TextPart? {
      assert i < |a| ==> a[i].TextPart?;
      assert i >= |a| ==> b[i - |a|].TextPart?;
    }
    if i :| 0 <= i < |a| && a[i].TextPart? {
      assert all[i].TextPart?;
    }
    if i :| 0 <= i < |b| && b[i].TextPart? {
      assert all[|a| + i].TextPart?;
    }
  }

  lemma JoinedTextFirst(parts: seq<Part>)
    requires parts != []
    ensures JoinedText(parts) ==
      if parts[0].Image? then JoinedText(parts[1..])
      else if !HasText(parts[1..]) then parts[0].text
      else parts[0].text + ("\n" + JoinedText(parts[1..]))
  {
    HasTextRest(parts);
  }

  /** Texts are joined by line breaks, in order; images say nothing. */
  lemma {:induction false} JoinedTextConcat(a: seq<Part>, b: seq<Part>)
    ensures JoinedText(a + b) ==
      if !HasText(a) then JoinedText(b)
      else if !HasText(b) then JoinedText(a)
      else JoinedText(a) + ("\n" + JoinedText(b))
  {
    if a == [] {
      assert a + b == b;
    } else {
      var rest := a[1..];
      assert (a + b)[1..] == rest + b;
      JoinedTextConcat(rest, b);
      JoinedTextFirst(a);
      JoinedTextFirst(a + b);
      HasTextRest(a);
      HasTextConcat(rest, b);
      if !HasText(rest) {
        NoTextIsEmpty(rest);
      }
      if !HasText(b) {
        NoTextIsEmpty(b);
      }
      if a[0].TextPart? && HasText(rest) && HasText(b) {
        var tail := "\n" + JoinedText(b);
        Assoc("\n", JoinedText(rest), tail);
        Assoc(a[0].text, "\n" + JoinedText(rest), tail);
      }
    }
  }
}
