/** The bounded tail kept of a tool call's output. Output is text held as UTF-8 bytes, and is cut at
    byte positions that must not fall inside a character. */
module OutputTail {
  import opened Text
  import opened Utf8
  import L = Lines

  const MAX_OUTPUT: nat := 32_768

  /** The longest suffix of a text that takes at most `max` bytes. */
  function Tail(max: nat, s: string): string {
    if ByteLen(s) <= max then s else Tail(max, s[1..])
  }

  lemma {:induction false} TailIsLongest(max: nat, s: string) returns (k: nat)
    ensures k <= |s| && Tail(max, s) == s[k..] && ByteLen(s[k..]) <= max
    ensures forall j :: 0 <= j < k ==> ByteLen(s[j..]) > max
  {
    if ByteLen(s) <= max {
      k := 0;
      assert s[0..] == s;
    } else {
      k := TailIsLongest(max, s[1..]);
      assert s[1..][k..] == s[k + 1..];
      forall j | 0 <= j < k + 1 ensures ByteLen(s[j..]) > max {
        if j > 0 {
          assert s[j..] == s[1..][j - 1..];
        } else {
          assert s[0..] == s;
        }
      }
      k := k + 1;
    }
  }

  lemma SuffixIsShorter(s: string, i: nat, j: nat)
    requires i <= j <= |s|
    ensures ByteLen(s[j..]) <= ByteLen(s[i..])
  {
    assert s[i..] == s[i..j] + s[j..];
    ByteLenConcat(s[i..j], s[j..]);
  }

  lemma LongestIsTail(max: nat, s: string, k: nat)
    requires k <= |s| && ByteLen(s[k..]) <= max && (k > 0 ==> ByteLen(s[k - 1..]) > max)
    ensures Tail(max, s) == s[k..]
  {
    var m := TailIsLongest(max, s);
    if m < k {
      SuffixIsShorter(s, m, k - 1);
    }
  }

  /** Dropping the front early changes nothing: the tail of a tail and more text is the tail of all. */
  lemma {:induction false} TailOfTail(max: nat, s: string, t: string)
    ensures Tail(max, Tail(max, s) + t) == Tail(max, s + t)
  {
    if ByteLen(s) > max {
      ByteLenConcat(s, t);
      assert (s + t)[1..] == s[1..] + t;
      TailOfTail(max, s[1..], t);
    }
  }

  function AppendAll(max: nat, deltas: seq<string>): string {
    if deltas == [] then [] else Tail(max, AppendAll(max, deltas[..|deltas| - 1]) + deltas[|deltas| - 1])
  }

  /** The incremental tail equals the one-shot tail, for any deltas. */
  lemma {:induction false} IncrementalIsOneShot(max: nat, deltas: seq<string>)
    ensures AppendAll(max, deltas) == Tail(max, Joined(deltas))
  {
    if deltas != [] {
      var init := deltas[..|deltas| - 1];
      IncrementalIsOneShot(max, init);
      TailOfTail(max, Joined(init), deltas[|deltas| - 1]);
      JoinedPush(init, deltas[|deltas| - 1]);
      assert deltas == init + [deltas[|deltas| - 1]];
    }
  }

  // ---------- On bytes ----------

  /** The cut the loop finds is where the tail starts. */
  lemma CutIsTail(max: nat, s: string, start: nat)
    requires start <= ByteLen(s) && ByteLen(s) - start <= max && IsBoundary(Encode(s), start)
    requires forall i :: 0 <= ByteLen(s) - max <= i < start ==> !IsBoundary(Encode(s), i)
    requires ByteLen(s) > max
    ensures Encode(s)[start..] == Encode(Tail(max, s))
  {
    var k := BoundarySplits(s, start);
    if k > 0 {
      PrefixEndsOnBoundary(s, k - 1);
      var before := ByteLen(s[..k - 1]);
      assert s[..k] == s[..k - 1] + [s[k - 1]];
      ByteLenConcat(s[..k - 1], [s[k - 1]]);
      assert before < start;
      assert before < ByteLen(s) - max;
    }
    LongestIsTail(max, s, k);
  }

  /** Appends text to the output and cuts the output back to its tail. The texts themselves are ghost:
      the program has only their bytes. */
  method AppendTail(output: Option<seq<byte>>, delta: seq<byte>, max: nat, ghost text: string, ghost more: string)
    returns (output': Option<seq<byte>>)
    requires output == (if text == [] && output.None? then None else Some(Encode(text))) && delta == Encode(more)
    ensures output' == Some(Encode(Tail(max, text + more)))
  {
    var bytes := (if output.Some? then output.value else []) + delta;
    EncodeConcat(text, more);
    if |bytes| <= max {
      return Some(bytes);
    }
    var start := |bytes| - max;
    while !IsBoundary(bytes, start)
      invariant |bytes| - max <= start <= |bytes|
      invariant forall i :: |bytes| - max <= i < start ==> !IsBoundary(bytes, i)
      decreases |bytes| - start
    {
      start := start + 1;
    }
    CutIsTail(max, text + more, start);
    output' := Some(bytes[start..]);
  }

  // ---------- The normalizer's tool calls ----------

  /** Terminal input is echoed line by line. */
  function Echo(lines: seq<string>): string {
    if lines == [] then [] else "> " + L.WithoutEnding(lines[0]) + "\n" + Echo(lines[1..])
  }

  lemma EchoOfFirst(line: string, rest: seq<string>)
    ensures Echo([line] + rest) == "> " + L.WithoutEnding(line) + "\n" + Echo(rest)
  {
    assert ([line] + rest)[1..] == rest;
  }

  /** Every line of the input comes back behind a prompt, with either line ending made plain; a last
      line without one gets one. */
  lemma EchoIs(plain: string, rest: string)
    requires L.IsPlain(plain, '\n')
    ensures plain == [] || plain[|plain| - 1] != '\r' ==>
      Echo(L.SplitInclusive(plain + ("\n" + rest))) == "> " + plain + "\n" + Echo(L.SplitInclusive(rest))
    ensures Echo(L.SplitInclusive(plain + "\r" + ("\n" + rest))) == "> " + plain + "\n" + Echo(L.SplitInclusive(rest))
    ensures plain != [] ==> Echo(L.SplitInclusive(plain)) == "> " + plain + "\n"
  {
    L.SplitLine(plain, rest);
    L.SplitLine(plain + "\r", rest);
    EchoOfFirst(plain + "\n", L.SplitInclusive(rest));
    EchoOfFirst(plain + "\r" + "\n", L.SplitInclusive(rest));
    L.EndingIsRemoved(plain);
    if plain != [] {
      L.SplitPlain(plain);
      EchoOfFirst(plain, []);
      assert [plain] + [] == [plain];
      assert "> " + plain + "\n" + Echo([]) == "> " + plain + "\n";
    }
  }

  /** What a call's output stands for: everything said since it was last set, and whether any of that
      was appended, so that only a tail is kept. */
  datatype Said = Said(text: string, appended: bool)

  function Kept(said: Said): string {
    if said.appended then Tail(MAX_OUTPUT, said.text) else said.text
  }

  /** A call without output has said nothing. */
  predicate Represents(output: Option<seq<byte>>, said: Said) {
    if output.None? then said == Said([], false) else output.value == Encode(Kept(said))
  }

  function Say(said: Said, more: string): Said { Said(said.text + more, true) }

  /** Ids are any text that is not blank. */
  function NewId(value: string): Option<string> { if Trim(value) == [] then None else Some(value) }

  function ParseId(value: Option<string>): Option<string> { if value.None? then None else NewId(value.value) }

  /** An id is any text with a visible character, and is kept as it is. */
  lemma IdIff(value: string)
    ensures NewId(value) == if exists i :: 0 <= i < |value| && !IsSpace(value[i]) then Some(value) else None
    ensures ParseId(Some(value)) == NewId(value) && ParseId(None) == None
  {
    if i :| 0 <= i < |value| && !IsSpace(value[i]) {
      TrimKeepsVisible(value, i);
    } else {
      AllSpaceTrims(value);
    }
  }

  function ItemEventName(sessionId: string, itemId: string): string { sessionId + (":codex:item:" + itemId) }

  /** The event id of an item can always be built: its name is never blank. */
  lemma ItemEventHasId(sessionId: string, itemId: string)
    ensures NewId(ItemEventName(sessionId, itemId)) == Some(ItemEventName(sessionId, itemId))
  {
    var name := ItemEventName(sessionId, itemId);
    assert name[|sessionId|] == ':';
    TrimKeepsVisible(name, |sessionId|);
  }

  datatype ToolCallChanged = ToolCallChanged(id: string, turnId: string, output: Option<seq<byte>>)

  class Normalizer {
    const sessionId: string
    var outputs: map<string, Option<seq<byte>>>
    ghost var said: map<string, Said>

    ghost predicate Valid()
      reads this
    {
      && outputs.Keys == said.Keys
      && forall id :: id in outputs ==> Represents(outputs[id], said[id])
    }

    constructor (sessionId: string)
      ensures Valid() && this.sessionId == sessionId && outputs == map[]
    {
      this.sessionId, outputs, said := sessionId, map[], map[];
    }

    /** A new or updated call: a stated output replaces what was there, a missing one keeps it. */
    method ToolChanged(id: string, output: Option<string>)
      modifies this
      requires Valid()
      ensures Valid()
      ensures said == old(said)[id :=
        if output.Some? then Said(output.value, false) else if id in old(said) then old(said)[id] else Said([], false)]
    {
      if output.Some? {
        outputs, said := outputs[id := Some(Encode(output.value))], said[id := Said(output.value, false)];
      } else if id in outputs {
        said := said[id := said[id]];
      } else {
        outputs, said := outputs[id := None], said[id := Said([], false)];
      }
    }

    /** The event about a call: it needs an event id, which can always be built, and a turn id that is
        there and not blank. */
    ghost function Changed(itemId: string, turnId: Option<string>): Option<ToolCallChanged>
      reads this
    {
      if itemId in outputs && ParseId(turnId).Some?
      then Some(ToolCallChanged(ItemEventName(sessionId, itemId), turnId.value, outputs[itemId])) else None
    }

    /** Whatever deltas arrive, and whatever happens to other calls, a call's output is the tail of
        everything said to it. A missing or blank turn id only suppresses the event. */
    method ToolOutput(itemId: Option<string>, delta: Option<string>, turnId: Option<string>)
      returns (event: Option<ToolCallChanged>)
      modifies this
      requires Valid()
      ensures Valid()
      ensures var known := itemId.Some? && delta.Some? && itemId.value in old(said);
        && said == (if known then old(said)[itemId.value := Say(old(said)[itemId.value], delta.value)] else old(said))
        && event == (if known then Changed(itemId.value, turnId) else None)
        && (known ==> outputs[itemId.value] == Some(Encode(Tail(MAX_OUTPUT, said[itemId.value].text))))
    {
      event := None;
      if itemId.None? || delta.None? || itemId.value !in outputs {
        return;
      }
      Append(itemId.value, delta.value);
      event := Report(itemId.value, turnId);
    }

    method TerminalInteraction(itemId: Option<string>, stdin: Option<string>, turnId: Option<string>)
      returns (event: Option<ToolCallChanged>)
      modifies this
      requires Valid()
      ensures Valid()
      ensures var known := itemId.Some? && stdin.Some? && itemId.value in old(said);
        && said == (if known
           then old(said)[itemId.value := Say(old(said)[itemId.value], Echo(L.SplitInclusive(stdin.value)))]
           else old(said))
        && event == (if known then Changed(itemId.value, turnId) else None)
        && (known ==> outputs[itemId.value] == Some(Encode(Tail(MAX_OUTPUT, said[itemId.value].text))))
    {
      event := None;
      if itemId.None? || stdin.None? || itemId.value !in outputs {
        return;
      }
      Append(itemId.value, Echo(L.SplitInclusive(stdin.value)));
      event := Report(itemId.value, turnId);
    }

    method Report(itemId: string, turnId: Option<string>) returns (event: Option<ToolCallChanged>)
      requires itemId in outputs
      ensures event == Changed(itemId, turnId)
    {
      var id := NewId(ItemEventName(sessionId, itemId));
      ItemEventHasId(sessionId, itemId);
      var turn := ParseId(turnId);
      if id.None? || turn.None? {
        return None;
      }
      event := Some(ToolCallChanged(id.value, turn.value, outputs[itemId]));
    }

    method Append(id: string, more: string)
      modifies this
      requires Valid() && id in outputs
      ensures Valid() && said == old(said)[id := Say(old(said)[id], more)]
    {
      ghost var before := said[id];
      TailOfTail(MAX_OUTPUT, before.text, more);
      var output := AppendTail(outputs[id], Encode(more), MAX_OUTPUT, Kept(before), more);
      outputs, said := outputs[id := output], said[id := Say(before, more)];
    }
  }
}
