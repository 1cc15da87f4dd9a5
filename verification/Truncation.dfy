/** Cutting one text, and one item, down to a byte limit. */
module Truncation {
  import opened Text
  import opened Utf8
  import opened Conversation

  // ---------- Truncating one text ----------

  /** The largest number of leading characters that encode within `limit` bytes. */
  function CharsWithin(s: string, limit: nat): (k: nat)
    ensures k <= |s|
  {
    if s == [] || |EncodeChar(s[0])| > limit then 0
    else 1 + CharsWithin(s[1..], limit - |EncodeChar(s[0])|)
  }

  lemma {:induction false} CharsWithinIsLargest(s: string, limit: nat)
    ensures var k := CharsWithin(s, limit);
      && ByteLen(s[..k]) <= limit
      && (k < |s| ==> ByteLen(s[..k]) + |EncodeChar(s[k])| > limit)
  {
    var k := CharsWithin(s, limit);
    if k > 0 {
      var w := |EncodeChar(s[0])|;
      CharsWithinIsLargest(s[1..], limit - w);
      assert s[..k][1..] == s[1..][..k - 1];
    }
  }

  /** Any prefix that ends at a byte between the cut and the limit is that same prefix. */
  lemma CutIsLargest(s: string, limit: nat, end: nat, k: nat)
    requires end <= limit && k <= |s| && ByteLen(s[..k]) == end
    requires forall j: nat :: end < j <= limit && j <= ByteLen(s) ==> !IsBoundary(Encode(s), j)
    ensures k == CharsWithin(s, limit)
  {
    var c := CharsWithin(s, limit);
    CharsWithinIsLargest(s, limit);
    PrefixEndsOnBoundary(s, c);
    if k < c {
      PrefixIsShorter(s, k, c);
    } else if c < k {
      PrefixIsShorter(s, c + 1, k);
      PrefixGrows(s, c);
    }
  }

  lemma PrefixGrows(s: string, k: nat)
    requires k < |s|
    ensures ByteLen(s[..k + 1]) == ByteLen(s[..k]) + |EncodeChar(s[k])|
  {
    assert s[..k + 1] == s[..k] + [s[k]];
    EncodeConcat(s[..k], [s[k]]);
    assert Encode([s[k]]) == EncodeChar(s[k]);
  }

  lemma PrefixIsShorter(s: string, i: nat, j: nat)
    requires i <= j <= |s|
    ensures ByteLen(s[..i]) <= ByteLen(s[..j]) && (i < j ==> ByteLen(s[..i]) < ByteLen(s[..j]))
  {
    assert s[..j] == s[..i] + s[i..j];
    EncodeConcat(s[..i], s[i..j]);
  }

  const MARKER_RESERVE := 64

  const MARKER_HEAD := "\n[... truncated "
  const MARKER_TAIL := " bytes to fit the compaction window ...]"

  function Marker(dropped: nat): string {
    MARKER_HEAD + Decimal(dropped) + MARKER_TAIL
  }

  function KeptPrefix(s: string, maxBytes: nat): string {
    s[..CharsWithin(s, Saturating(maxBytes, MARKER_RESERVE))]
  }

  function Truncated(s: string, maxBytes: nat): Option<string> {
    if ByteLen(s) <= maxBytes then None
    else
      var kept := KeptPrefix(s, maxBytes);
      Some(kept + Marker(Saturating(ByteLen(s), ByteLen(kept))))
  }

  /** The byte-level loop: step back from the limit to a character boundary, then cut there. */
  method TruncateTextToBytes(s: string, maxBytes: nat) returns (r: Option<string>)
    ensures r == Truncated(s, maxBytes)
  {
    var bytes := Encode(s);
    if |bytes| <= maxBytes {
      return None;
    }
    var keep := Saturating(maxBytes, MARKER_RESERVE);
    var end := if keep < |bytes| then keep else |bytes|;
    while end > 0 && !IsBoundary(bytes, end)
      invariant 0 <= end <= keep && end <= |bytes|
      invariant forall j: nat :: end < j <= keep && j <= |bytes| ==> !IsBoundary(bytes, j)
    {
      end := end - 1;
    }
    ghost var k := BoundarySplits(s, end);
    CutIsLargest(s, keep, end, k);
    CharsWithinIsLargest(s, end);
    CutIsLargest(s, end, end, k);
    var prefix := s[..CharsWithin(s, end)];
    return Some(prefix + Marker(|bytes| - end));
  }

  /** What a truncated text says: nothing changes within the limit; beyond it, the longest prefix of
      whole characters that leaves 64 bytes is followed by a notice of how many bytes are gone. */
  lemma TruncatedIs(s: string, maxBytes: nat) returns (k: nat, digits: string)
    ensures Truncated(s, maxBytes).None? <==> ByteLen(s) <= maxBytes
    ensures ByteLen(s) > maxBytes ==>
      && k <= |s| && ByteLen(s[..k]) <= (if maxBytes < 64 then 0 else maxBytes - 64)
      && (k < |s| ==> ByteLen(s[..k + 1]) > if maxBytes < 64 then 0 else maxBytes - 64)
      && (forall i :: 0 <= i < |digits| ==> IsDigit(digits[i])) && DigitsValue(digits) + ByteLen(s[..k]) == ByteLen(s)
      && Truncated(s, maxBytes).value
         == s[..k] + ("\n[... truncated " + digits + " bytes to fit the compaction window ...]")
  {
    k := CharsWithin(s, Saturating(maxBytes, MARKER_RESERVE));
    digits := Decimal(Saturating(ByteLen(s), ByteLen(s[..k])));
    CharsWithinIsLargest(s, Saturating(maxBytes, MARKER_RESERVE));
    PrefixEndsOnBoundary(s, k);
    DecimalRoundTrip(Saturating(ByteLen(s), ByteLen(s[..k])));
    if k < |s| {
      PrefixGrows(s, k);
    }
  }

  lemma PiecesLength(head: string, digits: string, tail: string)
    requires forall i :: 0 <= i < |head| ==> head[i] as int < 0x80
    requires forall i :: 0 <= i < |digits| ==> IsDigit(digits[i])
    requires forall i :: 0 <= i < |tail| ==> tail[i] as int < 0x80
    ensures ByteLen(head + digits + tail) == |head| + |digits| + |tail|
  {
    AsciiByteLen(head);
    AsciiByteLen(digits);
    AsciiByteLen(tail);
    ByteLenConcat(head, digits);
    ByteLenConcat(head + digits, tail);
  }

  lemma MarkerLength(dropped: nat)
    ensures ByteLen(Marker(dropped)) == 56 + |Decimal(dropped)|
  {
    PiecesLength(MARKER_HEAD, Decimal(dropped), MARKER_TAIL);
  }

  function Pow10(k: nat): nat {
    if k == 0 then 1 else 10 * Pow10(k - 1)
  }

  lemma {:induction false} DecimalLength(n: nat, k: nat)
    requires k > 0
    ensures |Decimal(n)| <= k <==> n < Pow10(k)
    decreases k
  {
    if k == 1 {
      assert Pow10(1) == 10 * Pow10(0);
    } else if n >= 10 {
      DecimalLength(n / 10, k - 1);
    } else {
      PowGrows(k);
    }
  }

  lemma {:induction false} PowGrows(k: nat)
    requires k > 0
    ensures Pow10(k) >= 10
  {
    if k > 1 {
      PowGrows(k - 1);
    }
  }

  /** The promise "within `max_bytes`, marker included" holds exactly when the marker's digits fit:
      never below 57 bytes, and always from 64 bytes on for texts under 10^8 bytes. */
  lemma TruncatedFits(s: string, maxBytes: nat)
    requires ByteLen(s) > maxBytes
    ensures var kept := ByteLen(KeptPrefix(s, maxBytes));
      var r := Truncated(s, maxBytes).value;
      && kept <= Saturating(maxBytes, MARKER_RESERVE)
      && (ByteLen(r) <= maxBytes <==> maxBytes >= kept + 57 && ByteLen(s) - kept < Pow10(maxBytes - kept - 56))
      && (maxBytes < 57 ==> ByteLen(r) > maxBytes)
      && (maxBytes >= 64 && ByteLen(s) < 100_000_000 ==> ByteLen(r) <= maxBytes)
  {
    var kept := ByteLen(KeptPrefix(s, maxBytes));
    var dropped := ByteLen(s) - kept;
    TruncatedSize(s, maxBytes);
    if maxBytes >= kept + 57 {
      DecimalLength(dropped, maxBytes - kept - 56);
    }
    DecimalLength(dropped, 8);
    Pow10Of8();
  }

  lemma TruncatedSize(s: string, maxBytes: nat)
    requires ByteLen(s) > maxBytes
    ensures var kept := ByteLen(KeptPrefix(s, maxBytes));
      && kept <= Saturating(maxBytes, MARKER_RESERVE) && kept <= ByteLen(s)
      && ByteLen(Truncated(s, maxBytes).value) == kept + 56 + |Decimal(ByteLen(s) - kept)|
  {
    var prefix := KeptPrefix(s, maxBytes);
    CharsWithinIsLargest(s, Saturating(maxBytes, MARKER_RESERVE));
    PrefixEndsOnBoundary(s, |prefix|);
    assert prefix == s[..|prefix|];
    var dropped := ByteLen(s) - ByteLen(prefix);
    MarkerLength(dropped);
    ByteLenConcat(prefix, Marker(dropped));
  }

  lemma Pow10Of8()
    ensures Pow10(8) == 100_000_000
  {
    assert Pow10(2) == 100 && Pow10(4) == 100 * Pow10(2) && Pow10(6) == 100 * Pow10(4) && Pow10(8) == 100 * Pow10(6);
  }

  // ---------- Truncating one item ----------

  function TruncatedText(s: string, maxBytes: nat): string {
    match Truncated(s, maxBytes) case None => s case Some(r) => r
  }

  function TruncatedParts(parts: seq<Part>, maxBytes: nat): seq<Part> {
    if parts == [] then []
    else [if parts[0].TextPart? then TextPart(TruncatedText(parts[0].text, maxBytes)) else parts[0]]
         + TruncatedParts(parts[1..], maxBytes)
  }

  function TruncatedItem(item: Item, maxTokens: nat): Item {
    var maxBytes := maxTokens * 4;
    match item
    case ToolResult(id, content, images) => ToolResult(id, TruncatedText(content, maxBytes), images)
    case Assistant(content, calls, model) => Assistant(TruncatedText(content, maxBytes), calls, model)
    case User(parts, reason, meta) => User(TruncatedParts(parts, maxBytes), reason, meta)
    case _ => item
  }

  function BlankTexts(parts: seq<Part>): seq<Part> {
    if parts == [] then []
    else [if parts[0].TextPart? then TextPart([]) else parts[0]] + BlankTexts(parts[1..])
  }

  /** An item without its text: kind, ids, calls, provenance, metadata and images. */
  function Skeleton(item: Item): Item {
    match item
    case ToolResult(id, _, images) => ToolResult(id, [], images)
    case Assistant(_, calls, model) => Assistant([], calls, model)
    case User(parts, reason, meta) => User(BlankTexts(parts), reason, meta)
    case _ => item
  }

  lemma {:induction false} TruncatedPartsBlank(parts: seq<Part>, maxBytes: nat)
    ensures BlankTexts(TruncatedParts(parts, maxBytes)) == BlankTexts(parts)
  {
    if parts != [] {
      TruncatedPartsBlank(parts[1..], maxBytes);
      assert TruncatedParts(parts, maxBytes)[1..] == TruncatedParts(parts[1..], maxBytes);
    }
  }

  /** Cutting an item changes its text only. */
  lemma TruncationKeepsStructure(item: Item, maxTokens: nat)
    ensures Skeleton(TruncatedItem(item, maxTokens)) == Skeleton(item)
  {
    if item.User? {
      TruncatedPartsBlank(item.parts, maxTokens * 4);
    }
  }

  /** `after` is `before` truncated to four bytes per token, if it is longer than that. */
  predicate IsCutText(before: string, after: string, maxTokens: nat) {
    var r := Truncated(before, 4 * maxTokens);
    after == if ByteLen(before) <= 4 * maxTokens || r.None? then before else r.value
  }

  lemma {:induction false} TruncatedPartsCut(parts: seq<Part>, maxTokens: nat)
    ensures var after := TruncatedParts(parts, 4 * maxTokens);
      && |after| == |parts|
      && forall i :: 0 <= i < |parts| ==>
           if parts[i].Image? then after[i] == parts[i]
           else after[i].TextPart? && IsCutText(parts[i].text, after[i].text, maxTokens)
  {
    if parts != [] {
      TruncatedPartsCut(parts[1..], maxTokens);
    }
  }

  /** The text of a result, of an assistant, and of each text part of a user item is cut to four bytes
      per token; a system item, reasoning and backend calls are not. */
  lemma TruncationCutsText(item: Item, maxTokens: nat)
    ensures var after := TruncatedItem(item, maxTokens);
      && (item.ToolResult? ==> after.ToolResult? && IsCutText(item.content, after.content, maxTokens))
      && (item.Assistant? ==> after.Assistant? && IsCutText(item.content, after.content, maxTokens))
      && (item.User? ==>
          && after.User? && |after.parts| == |item.parts|
          && forall i :: 0 <= i < |item.parts| ==>
               if item.parts[i].Image? then after.parts[i] == item.parts[i]
               else after.parts[i].TextPart? && IsCutText(item.parts[i].text, after.parts[i].text, maxTokens))
      && (item.System? || item.Reasoning? || item.BackendToolCall? ==> after == item)
  {
    if item.User? {
      TruncatedPartsCut(item.parts, maxTokens);
    }
  }
}
