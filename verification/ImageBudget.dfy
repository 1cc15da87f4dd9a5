/** Evicting inline images, oldest first, until the request body is small enough. */
module ImageBudget {
  import opened Text
  import opened Utf8
  import opened Conversation
  import opened JsonSize

  /** How bodies are measured, and the two texts that stand in for evicted images. The results hold
      for every layout and URL measure; the program measures URLs with `EncodedUrlBytes`. */
  datatype Policy = Policy(lay: Layout, u: string -> nat, placeholder: string, note: string)

  /** Writing an image list takes at least as much room as leaving it out. */
  ghost predicate IsSound(p: Policy) {
    ByteLen(p.lay.toolEnd) <= ByteLen(p.lay.imagesHead) + ByteLen(p.lay.imagesEnd)
  }

  function Size(p: Policy, items: seq<Item>): nat { BodySize(p.lay, p.u, items) }

  function ImageBytes(p: Policy, url: string): nat { ImageSize(p.lay, p.u, url) }

  function PlaceholderBytes(p: Policy): nat { PartSize(p.lay, p.u, TextPart(p.placeholder)) }

  function NoteSuffix(p: Policy): string { "\n\n" + p.note }

  function NoteBytes(p: Policy): nat { EscapedBytes(NoteSuffix(p)) }

  // ---------- Evicting the oldest image ----------

  function FirstImage(parts: seq<Part>): (k: nat)
    requires PartUrls(parts) != []
    ensures k < |parts| && parts[k].Image?
  {
    if parts[0].Image? then 0 else 1 + FirstImage(parts[1..])
  }

  /** `parts` with another part in place of its oldest image. */
  function ReplaceFirst(parts: seq<Part>, part: Part): seq<Part>
    requires PartUrls(parts) != []
  {
    if parts[0].Image? then [part] + parts[1..] else [parts[0]] + ReplaceFirst(parts[1..], part)
  }

  /** `parts` without its oldest image. */
  function RemoveFirst(parts: seq<Part>): (r: seq<Part>)
    requires PartUrls(parts) != []
    ensures |r| == |parts| - 1
  {
    if parts[0].Image? then parts[1..] else [parts[0]] + RemoveFirst(parts[1..])
  }

  lemma {:induction false} ReplaceFirstIs(parts: seq<Part>, part: Part)
    requires PartUrls(parts) != []
    ensures ReplaceFirst(parts, part) == parts[FirstImage(parts) := part]
  {
    if !parts[0].Image? {
      var rest, k := parts[1..], FirstImage(parts[1..]);
      ReplaceFirstIs(rest, part);
      assert [parts[0]] + rest[k := part] == parts[k + 1 := part];
    }
  }

  lemma {:induction false} RemoveFirstIs(parts: seq<Part>)
    requires PartUrls(parts) != []
    ensures RemoveFirst(parts) == parts[..FirstImage(parts)] + parts[FirstImage(parts) + 1..]
  {
    if !parts[0].Image? {
      var rest, k := parts[1..], FirstImage(parts[1..]);
      RemoveFirstIs(rest);
      assert [parts[0]] + rest[..k] == parts[..k + 1];
      Assoc([parts[0]], rest[..k], rest[k + 1..]);
    }
  }

  predicate HasNote(p: Policy, content: string) { Find(content, p.note).Some? }

  function WithNote(p: Policy, content: string): string {
    if HasNote(p, content) then content else content + NoteSuffix(p)
  }

  function EvictFromItem(p: Policy, item: Item): Item
    requires ItemUrls(item) != []
  {
    match item
    case User(parts, reason, meta) => User(ReplaceFirst(parts, TextPart(p.placeholder)), reason, meta)
    case ToolResult(id, content, images) => ToolResult(id, WithNote(p, content), RemoveFirst(images))
  }

  function EvictFirst(p: Policy, items: seq<Item>): seq<Item>
    requires Urls(items) != []
  {
    if ItemUrls(items[0]) != [] then [EvictFromItem(p, items[0])] + items[1..]
    else [items[0]] + EvictFirst(p, items[1..])
  }

  /** The item an eviction touches. */
  function Victim(items: seq<Item>): (item: Item)
    requires Urls(items) != []
    ensures ItemUrls(item) != [] && ItemUrls(item)[0] == Urls(items)[0]
  {
    if ItemUrls(items[0]) != [] then items[0] else Victim(items[1..])
  }

  /** The loop's new estimate, with its saturating subtractions. */
  function Estimate(p: Policy, item: Item, running: nat): nat
    requires ItemUrls(item) != []
  {
    var bytes := ImageBytes(p, ItemUrls(item)[0]);
    match item
    case User(_, _, _) => Saturating(running, Saturating(bytes, PlaceholderBytes(p)))
    case ToolResult(_, content, images) =>
      Saturating(running, bytes + (if |images| > 1 then 1 else 0)) + (if HasNote(p, content) then 0 else NoteBytes(p))
  }

  /** How much an evicted image falls short of the placeholder that replaces it. */
  function Deficit(p: Policy, item: Item): nat
    requires ItemUrls(item) != []
  {
    if item.User? then Saturating(PlaceholderBytes(p), ImageBytes(p, ItemUrls(item)[0])) else 0
  }

  /** What an emptied image list saves beyond its last image. */
  function Gain(p: Policy, item: Item): nat
    requires ItemUrls(item) != []
  {
    if item.ToolResult? then ListGain(p, item.images) else 0
  }

  // ---------- What one eviction does to sizes and URLs ----------

  lemma UrlsOf(head: Part, rest: seq<Part>)
    ensures PartUrls([head] + rest) == (if head.Image? then [head.url] else []) + PartUrls(rest)
  {
    assert ([head] + rest)[1..] == rest;
  }

  lemma TotalOf(p: Policy, head: Part, rest: seq<Part>)
    ensures PartsTotal(p.lay, p.u, [head] + rest) == PartSize(p.lay, p.u, head) + PartsTotal(p.lay, p.u, rest)
  {
    assert ([head] + rest)[1..] == rest;
  }

  lemma {:induction false} ReplaceFirstUrls(parts: seq<Part>, part: Part)
    requires PartUrls(parts) != [] && !part.Image?
    ensures PartUrls(ReplaceFirst(parts, part)) == PartUrls(parts)[1..]
  {
    var head, rest := parts[0], parts[1..];
    if head.Image? {
      UrlsOf(part, rest);
    } else {
      ReplaceFirstUrls(rest, part);
      UrlsOf(head, ReplaceFirst(rest, part));
    }
  }

  lemma {:induction false} ReplaceFirstTotal(p: Policy, parts: seq<Part>, part: Part)
    requires PartUrls(parts) != []
    ensures |ReplaceFirst(parts, part)| == |parts|
    ensures PartsTotal(p.lay, p.u, ReplaceFirst(parts, part)) + ImageBytes(p, PartUrls(parts)[0])
         == PartsTotal(p.lay, p.u, parts) + PartSize(p.lay, p.u, part)
  {
    var head, rest := parts[0], parts[1..];
    if head.Image? {
      TotalOf(p, part, rest);
    } else {
      ReplaceFirstTotal(p, rest, part);
      TotalOf(p, head, ReplaceFirst(rest, part));
    }
  }

  lemma {:induction false} RemoveFirstUrls(parts: seq<Part>)
    requires PartUrls(parts) != []
    ensures PartUrls(RemoveFirst(parts)) == PartUrls(parts)[1..]
  {
    var head, rest := parts[0], parts[1..];
    if !head.Image? {
      RemoveFirstUrls(rest);
      UrlsOf(head, RemoveFirst(rest));
    }
  }

  lemma {:induction false} RemoveFirstTotal(p: Policy, parts: seq<Part>)
    requires PartUrls(parts) != []
    ensures PartsTotal(p.lay, p.u, RemoveFirst(parts)) + ImageBytes(p, PartUrls(parts)[0])
      == PartsTotal(p.lay, p.u, parts)
  {
    var head, rest := parts[0], parts[1..];
    if !head.Image? {
      RemoveFirstTotal(p, rest);
      TotalOf(p, head, RemoveFirst(rest));
    }
  }

  lemma NoteSize(p: Policy, content: string)
    ensures EscapedBytes(WithNote(p, content)) == EscapedBytes(content)
      + if HasNote(p, content) then 0 else NoteBytes(p)
  {
    if !HasNote(p, content) {
      EscapeConcat(content, NoteSuffix(p));
      ByteLenConcat(Escape(content), Escape(NoteSuffix(p)));
    }
  }

  lemma EvictItemUrls(p: Policy, item: Item)
    requires ItemUrls(item) != []
    ensures ItemUrls(EvictFromItem(p, item)) == ItemUrls(item)[1..]
  {
    if item.User? {
      ReplaceFirstUrls(item.parts, TextPart(p.placeholder));
    } else {
      RemoveFirstUrls(item.images);
    }
  }

  /** One eviction from a user item, priced exactly. */
  lemma EvictUserSize(p: Policy, item: Item)
    requires item.User? && ItemUrls(item) != []
    ensures ItemSize(p.lay, p.u, EvictFromItem(p, item)) + ImageBytes(p, ItemUrls(item)[0])
         == ItemSize(p.lay, p.u, item) + PlaceholderBytes(p)
  {
    ReplaceFirstTotal(p, item.parts, TextPart(p.placeholder));
  }

  /** What an image list takes: nothing but the end of the item when it is empty. */
  function ListSize(p: Policy, images: seq<Part>): nat {
    if images == [] then ByteLen(p.lay.toolEnd)
    else ByteLen(p.lay.imagesHead) + PartsSize(p.lay, p.u, images) + ByteLen(p.lay.imagesEnd)
  }

  function ListGain(p: Policy, images: seq<Part>): nat {
    if |images| == 1
    then Saturating(ByteLen(p.lay.imagesHead) + ByteLen(p.lay.imagesEnd), ByteLen(p.lay.toolEnd)) else 0
  }

  lemma ListShrinks(p: Policy, images: seq<Part>)
    requires PartUrls(images) != [] && IsSound(p)
    ensures ListSize(p, RemoveFirst(images)) + ImageBytes(p, PartUrls(images)[0]) + (if |images| > 1 then 1 else 0)
            + ListGain(p, images) == ListSize(p, images)
  {
    RemoveFirstTotal(p, images);
  }

  /** One eviction from a tool result, priced exactly. */
  lemma EvictToolSize(p: Policy, item: Item)
    requires item.ToolResult? && ItemUrls(item) != [] && IsSound(p)
    ensures ItemSize(p.lay, p.u, EvictFromItem(p, item)) + ImageBytes(p, ItemUrls(item)[0])
            + (if |item.images| > 1 then 1 else 0) + Gain(p, item)
         == ItemSize(p.lay, p.u, item) + (if HasNote(p, item.content) then 0 else NoteBytes(p))
  {
    ListShrinks(p, item.images);
    NoteSize(p, item.content);
    ToolSize(p, item.callId, item.content, item.images);
    ToolSize(p, item.callId, WithNote(p, item.content), RemoveFirst(item.images));
  }

  lemma ToolSize(p: Policy, id: string, content: string, images: seq<Part>)
    ensures ItemSize(p.lay, p.u, ToolResult(id, content, images))
         == ByteLen(p.lay.toolHead(id)) + EscapedBytes(content) + ListSize(p, images)
  {
  }

  lemma ItemUrlsOf(head: Item, rest: seq<Item>)
    ensures Urls([head] + rest) == ItemUrls(head) + Urls(rest)
  {
    assert ([head] + rest)[1..] == rest;
  }

  lemma FirstOfConcat<T>(a: seq<T>, b: seq<T>)
    requires a != []
    ensures (a + b)[0] == a[0]
  {
  }

  lemma TailOfConcat<T>(a: seq<T>, b: seq<T>)
    requires a != []
    ensures (a + b)[1..] == a[1..] + b
  {
  }

  lemma {:induction false} EvictFirstUrls(p: Policy, items: seq<Item>)
    requires Urls(items) != []
    ensures |EvictFirst(p, items)| == |items| && Urls(EvictFirst(p, items)) == Urls(items)[1..]
  {
    var head, rest := items[0], items[1..];
    if ItemUrls(head) != [] {
      EvictItemUrls(p, head);
      ItemUrlsOf(EvictFromItem(p, head), rest);
      TailOfConcat(ItemUrls(head), Urls(rest));
    } else {
      EvictFirstUrls(p, rest);
      ItemUrlsOf(head, EvictFirst(p, rest));
    }
  }

  /** Only the victim's size changes. */
  lemma {:induction false} EvictFirstSize(p: Policy, items: seq<Item>)
    requires Urls(items) != []
    ensures ItemsTotal(p.lay, p.u, EvictFirst(p, items)) + ItemSize(p.lay, p.u, Victim(items))
         == ItemsTotal(p.lay, p.u, items) + ItemSize(p.lay, p.u, EvictFromItem(p, Victim(items)))
  {
    var head, rest, after := items[0], items[1..], EvictFirst(p, items);
    if ItemUrls(head) != [] {
      assert after[1..] == rest;
    } else {
      assert Urls(items) == Urls(rest);
      EvictFirstSize(p, rest);
      assert after[1..] == EvictFirst(p, rest);
    }
  }

  // ---------- The eviction loop ----------

  /** The outcome of the loop; `deficit` and `gain` tally what its estimate does not see. */
  datatype Outcome = Outcome(items: seq<Item>, running: nat, evicted: nat, deficit: nat, gain: nat)

  /** The outcome of the later rounds, with the eviction from `item` before them. */
  function Counted(p: Policy, item: Item, o: Outcome): Outcome
    requires ItemUrls(item) != []
  {
    o.(evicted := o.evicted + 1, deficit := o.deficit + Deficit(p, item), gain := o.gain + Gain(p, item))
  }

  function Evict(p: Policy, items: seq<Item>, running: nat, target: nat): Outcome
    decreases |Urls(items)|
  {
    if running <= target || Urls(items) == [] then Outcome(items, running, 0, 0, 0)
    else
      var item := Victim(items);
      EvictFirstUrls(p, items);
      Counted(p, item, Evict(p, EvictFirst(p, items), Estimate(p, item, running), target))
  }

  /** What the images of an item weigh, with the commas between list entries. */
  function ItemWeight(p: Policy, item: Item): nat {
    UrlTotal(url => ImageBytes(p, url), ItemUrls(item)) + if item.ToolResult? then Commas(|item.images|) else 0
  }

  function Weight(p: Policy, items: seq<Item>): nat {
    if items == [] then 0 else ItemWeight(p, items[0]) + Weight(p, items[1..])
  }

  lemma {:induction false} PartsOutweigh(p: Policy, parts: seq<Part>)
    ensures UrlTotal(url => ImageBytes(p, url), PartUrls(parts)) <= PartsTotal(p.lay, p.u, parts)
  {
    if parts != [] {
      PartsOutweigh(p, parts[1..]);
      if parts[0].Image? {
        assert PartUrls(parts)[1..] == PartUrls(parts[1..]);
      } else {
        assert PartUrls(parts) == PartUrls(parts[1..]);
      }
    }
  }

  lemma {:induction false} SizeOutweighs(p: Policy, items: seq<Item>)
    ensures Weight(p, items) <= ItemsTotal(p.lay, p.u, items)
  {
    if items != [] {
      SizeOutweighs(p, items[1..]);
      match items[0]
      case User(parts, _, _) => PartsOutweigh(p, parts);
      case ToolResult(_, _, images) => PartsOutweigh(p, images);
      case _ =>
    }
  }

  lemma EvictItemWeight(p: Policy, item: Item)
    requires ItemUrls(item) != []
    ensures ItemWeight(p, item) == ItemWeight(p, EvictFromItem(p, item)) + ImageBytes(p, ItemUrls(item)[0])
            + if item.ToolResult? && |item.images| > 1 then 1 else 0
  {
    EvictItemUrls(p, item);
  }

  lemma {:induction false} EvictFirstWeight(p: Policy, items: seq<Item>)
    requires Urls(items) != []
    ensures Weight(p, EvictFirst(p, items)) + ItemWeight(p, Victim(items))
         == Weight(p, items) + ItemWeight(p, EvictFromItem(p, Victim(items)))
    ensures ItemWeight(p, Victim(items)) <= Weight(p, items)
  {
    var head, rest, after := items[0], items[1..], EvictFirst(p, items);
    if ItemUrls(head) != [] {
      assert after[1..] == rest;
    } else {
      assert Urls(items) == Urls(rest);
      EvictFirstWeight(p, rest);
      assert after[1..] == EvictFirst(p, rest);
    }
  }

  /** One round of the loop: no subtraction saturates, and the books balance. */
  lemma RoundBalances(p: Policy, items: seq<Item>, running: nat)
    requires Urls(items) != [] && IsSound(p) && running >= Weight(p, items)
    ensures var item, after := Victim(items), EvictFirst(p, items);
      var next := Estimate(p, item, running);
      && next >= Weight(p, after)
      && next + Size(p, items) + Deficit(p, item) == running + Size(p, after) + Gain(p, item)
  {
    var item := Victim(items);
    EvictFirstUrls(p, items);
    EvictFirstSize(p, items);
    EvictItemWeight(p, item);
    EvictFirstWeight(p, items);
    if item.User? {
      EvictUserSize(p, item);
    } else {
      EvictToolSize(p, item);
    }
  }

  /** The exact account of the whole loop, for every history: its estimate misses the placeholders
      that outgrow their images and the image lists that disappear, and nothing else. */
  lemma {:induction false} EvictionBalances(p: Policy, items: seq<Item>, running: nat, target: nat)
    requires IsSound(p) && running >= Weight(p, items)
    ensures var o := Evict(p, items, running, target);
      o.running + Size(p, items) + o.deficit == running + Size(p, o.items) + o.gain
    decreases |Urls(items)|
  {
    if running > target && Urls(items) != [] {
      EvictFirstUrls(p, items);
      RoundBalances(p, items, running);
      EvictionBalances(p, EvictFirst(p, items), Estimate(p, Victim(items), running), target);
    }
  }

  lemma EvictRound(p: Policy, items: seq<Item>, running: nat, target: nat)
    requires running > target && Urls(items) != []
    ensures Evict(p, items, running, target)
         == Counted(p, Victim(items), Evict(p, EvictFirst(p, items), Estimate(p, Victim(items), running), target))
  {
  }

  /** Oldest first: exactly the first `evicted` images are gone, and the loop stops only when its
      estimate is at the target or no image is left. */
  lemma {:induction false} EvictionIsOldestFirst(p: Policy, items: seq<Item>, running: nat, target: nat)
    ensures var o := Evict(p, items, running, target);
      && o.evicted <= |Urls(items)| && Urls(o.items) == Urls(items)[o.evicted..]
      && (o.running <= target || Urls(o.items) == [])
    decreases |Urls(items)|
  {
    if running > target && Urls(items) != [] {
      var next, estimate := EvictFirst(p, items), Estimate(p, Victim(items), running);
      EvictFirstUrls(p, items);
      EvictionIsOldestFirst(p, next, estimate, target);
      EvictRound(p, items, running, target);
      var n := Evict(p, next, estimate, target).evicted;
      assert Urls(items)[1..][n..] == Urls(items)[n + 1..];
    }
  }

  // ---------- When the estimate bounds the body ----------

  ghost predicate AllLong(p: Policy, urls: seq<string>) {
    forall k :: 0 <= k < |urls| ==> ImageBytes(p, urls[k]) >= PlaceholderBytes(p)
  }

  /** Every user image serializes to at least the placeholder's size. */
  ghost predicate NoShortImages(p: Policy, items: seq<Item>) {
    forall i :: 0 <= i < |items| ==> items[i].User? ==> AllLong(p, ItemUrls(items[i]))
  }

  lemma EvictItemStaysLong(p: Policy, item: Item)
    requires ItemUrls(item) != [] && (item.User? ==> AllLong(p, ItemUrls(item)))
    ensures Deficit(p, item) == 0
    ensures var after := EvictFromItem(p, item); after.User? ==> AllLong(p, ItemUrls(after))
  {
    EvictItemUrls(p, item);
  }

  lemma {:induction false} VictimIsNotShort(p: Policy, items: seq<Item>)
    requires Urls(items) != [] && NoShortImages(p, items)
    ensures Deficit(p, Victim(items)) == 0 && NoShortImages(p, EvictFirst(p, items))
  {
    var head, rest := items[0], items[1..];
    if ItemUrls(head) != [] {
      EvictItemStaysLong(p, head);
    } else {
      assert Urls(items) == Urls(rest);
      VictimIsNotShort(p, rest);
    }
  }

  lemma {:induction false} NoDeficit(p: Policy, items: seq<Item>, running: nat, target: nat)
    requires NoShortImages(p, items)
    ensures Evict(p, items, running, target).deficit == 0
    decreases |Urls(items)|
  {
    if running > target && Urls(items) != [] {
      EvictFirstUrls(p, items);
      VictimIsNotShort(p, items);
      NoDeficit(p, EvictFirst(p, items), Estimate(p, Victim(items), running), target);
    }
  }

  function Budgeted(p: Policy, items: seq<Item>, trigger: nat, target: nat): Outcome {
    var bytes := Size(p, items);
    if bytes >= trigger && bytes > target then Evict(p, items, bytes, target) else Outcome(items, bytes, 0, 0, 0)
  }

  /** Eviction reclaims enough: the estimate bounds the true body, so the body ends at or below the
      target or without images. */
  lemma EvictionReclaimsEnough(p: Policy, items: seq<Item>, trigger: nat, target: nat)
    requires IsSound(p)
    ensures var o := Budgeted(p, items, trigger, target);
      && Size(p, o.items) + o.gain == o.running + o.deficit
      && (Size(p, o.items) <= o.running <==> o.deficit <= o.gain)
      && (NoShortImages(p, items) ==> o.deficit == 0)
      && (NoShortImages(p, items) && Size(p, items) >= trigger ==> Size(p, o.items) <= target || Urls(o.items) == [])
  {
    SizeOutweighs(p, items);
    var bytes := Size(p, items);
    if bytes >= trigger && bytes > target {
      EvictionBalances(p, items, bytes, target);
      EvictionIsOldestFirst(p, items, bytes, target);
      if NoShortImages(p, items) {
        NoDeficit(p, items, bytes, target);
      }
    }
  }

  // ---------- Exactly when the target is reached ----------

  /** The loop after `n` rounds, whatever its target. */
  function After(p: Policy, items: seq<Item>, running: nat, n: nat): Outcome
    requires n <= |Urls(items)|
    decreases n
  {
    if n == 0 then Outcome(items, running, 0, 0, 0)
    else
      var item := Victim(items);
      EvictFirstUrls(p, items);
      Counted(p, item, After(p, EvictFirst(p, items), Estimate(p, item, running), n - 1))
  }

  /** The estimates before round `n` are all above `target`. */
  ghost predicate AboveBefore(p: Policy, items: seq<Item>, running: nat, target: nat, n: nat)
    requires n <= |Urls(items)|
  {
    forall k :: 0 <= k < n ==> After(p, items, running, k).running > target
  }

  lemma AboveShifts(p: Policy, items: seq<Item>, running: nat, target: nat, n: nat)
    requires 0 < n <= |Urls(items)|
    ensures |Urls(EvictFirst(p, items))| == |Urls(items)| - 1
    ensures AboveBefore(p, items, running, target, n) <==>
      running > target && AboveBefore(p, EvictFirst(p, items), Estimate(p, Victim(items), running), target, n - 1)
  {
    EvictFirstUrls(p, items);
    var next, estimate := EvictFirst(p, items), Estimate(p, Victim(items), running);
    forall k | 0 <= k < n - 1
      ensures After(p, items, running, k + 1).running == After(p, next, estimate, k).running
    {
    }
    if AboveBefore(p, next, estimate, target, n - 1) && running > target {
      forall k | 0 <= k < n ensures After(p, items, running, k).running > target {
        assert k > 0 ==> After(p, items, running, k).running == After(p, next, estimate, k - 1).running;
      }
    }
    if AboveBefore(p, items, running, target, n) {
      assert After(p, items, running, 0).running > target;
      forall k | 0 <= k < n - 1 ensures After(p, next, estimate, k).running > target {
        assert After(p, items, running, k + 1).running > target;
      }
    }
  }

  lemma AfterRound(p: Policy, items: seq<Item>, running: nat, n: nat)
    requires 0 < n <= |Urls(items)| && n - 1 <= |Urls(EvictFirst(p, items))|
    ensures After(p, items, running, n)
         == Counted(p, Victim(items), After(p, EvictFirst(p, items), Estimate(p, Victim(items), running), n - 1))
  {
  }

  /** The loop stops after some rounds ... */
  lemma {:induction false} EvictIsAfter(p: Policy, items: seq<Item>, running: nat, target: nat)
    ensures var o := Evict(p, items, running, target);
      o.evicted <= |Urls(items)| && o == After(p, items, running, o.evicted)
    decreases |Urls(items)|
  {
    if running > target && Urls(items) != [] {
      var next, estimate := EvictFirst(p, items), Estimate(p, Victim(items), running);
      EvictFirstUrls(p, items);
      EvictIsAfter(p, next, estimate, target);
      EvictRound(p, items, running, target);
      AfterRound(p, items, running, Evict(p, next, estimate, target).evicted + 1);
    }
  }

  /** ... and not before its estimate first reaches the target. */
  lemma {:induction false} EvictStaysAbove(p: Policy, items: seq<Item>, running: nat, target: nat)
    ensures var n := Evict(p, items, running, target).evicted;
      n <= |Urls(items)| && AboveBefore(p, items, running, target, n)
    decreases |Urls(items)|
  {
    if running > target && Urls(items) != [] {
      var next, estimate := EvictFirst(p, items), Estimate(p, Victim(items), running);
      EvictFirstUrls(p, items);
      EvictStaysAbove(p, next, estimate, target);
      EvictRound(p, items, running, target);
      AboveShifts(p, items, running, target, Evict(p, next, estimate, target).evicted + 1);
    }
  }

  /** The converse: the first round at the target is where the loop stops. */
  lemma StopsThere(p: Policy, items: seq<Item>, running: nat, target: nat, n: nat)
    requires n <= |Urls(items)| && AboveBefore(p, items, running, target, n)
    requires After(p, items, running, n).running <= target
    ensures Evict(p, items, running, target) == After(p, items, running, n)
    ensures Evict(p, items, running, target).evicted == n
  {
    var o := Evict(p, items, running, target);
    EvictIsAfter(p, items, running, target);
    EvictStaysAbove(p, items, running, target);
    EvictionIsOldestFirst(p, items, running, target);
    assert After(p, items, running, o.evicted).running == o.running;
  }

  /** Round `n` brings the estimate lower than it ever was. */
  ghost predicate IsLow(p: Policy, items: seq<Item>, n: nat)
    requires n <= |Urls(items)|
  {
    var bytes := Size(p, items);
    AboveBefore(p, items, bytes, After(p, items, bytes, n).running, n)
  }

  /** By round `n`, placeholders have not outgrown their images by more than vanished image lists saved. */
  predicate IsCovered(p: Policy, items: seq<Item>, n: nat)
    requires n <= |Urls(items)|
  {
    var o := After(p, items, Size(p, items), n);
    o.deficit <= o.gain
  }

  ghost predicate ReachesTarget(p: Policy, items: seq<Item>, trigger: nat, target: nat) {
    var once := Budgeted(p, items, trigger, target).items;
    Size(p, once) <= target || Urls(once) == []
  }

  lemma CoveredReaches(p: Policy, items: seq<Item>, trigger: nat, target: nat)
    requires IsSound(p) && trigger <= Size(p, items)
    requires forall n :: 0 <= n < |Urls(items)| && IsLow(p, items, n) ==> IsCovered(p, items, n)
    ensures ReachesTarget(p, items, trigger, target)
  {
    var bytes := Size(p, items);
    if bytes > target {
      var o := Evict(p, items, bytes, target);
      EvictIsAfter(p, items, bytes, target);
      EvictStaysAbove(p, items, bytes, target);
      EvictionIsOldestFirst(p, items, bytes, target);
      EvictionReclaimsEnough(p, items, trigger, target);
      if Urls(o.items) != [] {
        assert IsLow(p, items, o.evicted);
        assert IsCovered(p, items, o.evicted);
      }
    }
  }

  lemma ReachingCovers(p: Policy, items: seq<Item>, trigger: nat, n: nat)
    requires IsSound(p) && trigger <= Size(p, items) && n < |Urls(items)| && IsLow(p, items, n)
    requires ReachesTarget(p, items, trigger, After(p, items, Size(p, items), n).running)
    ensures IsCovered(p, items, n)
  {
    var bytes := Size(p, items);
    var target := After(p, items, bytes, n).running;
    if n > 0 {
      assert After(p, items, bytes, 0).running > target;
      StopsThere(p, items, bytes, target, n);
      EvictionIsOldestFirst(p, items, bytes, target);
      EvictionReclaimsEnough(p, items, trigger, target);
    }
  }

  /** The round the loop stops at: its estimate is at the target for the first time. */
  ghost predicate FirstAtTarget(p: Policy, items: seq<Item>, target: nat, n: nat)
    requires n <= |Urls(items)|
  {
    After(p, items, Size(p, items), n).running <= target && AboveBefore(p, items, Size(p, items), target, n)
  }

  /** One target: it is reached exactly when the shortfall by the first round at it fits the room left. */
  lemma ReachesThisTargetIff(p: Policy, items: seq<Item>, trigger: nat, target: nat)
    requires IsSound(p) && trigger <= Size(p, items)
    ensures ReachesTarget(p, items, trigger, target) <==>
      forall n :: 0 <= n < |Urls(items)| && FirstAtTarget(p, items, target, n) ==>
        var o := After(p, items, Size(p, items), n); o.running + o.deficit <= target + o.gain
  {
    var bytes := Size(p, items);
    var o := Evict(p, items, bytes, target);
    EvictIsAfter(p, items, bytes, target);
    EvictStaysAbove(p, items, bytes, target);
    EvictionIsOldestFirst(p, items, bytes, target);
    EvictionReclaimsEnough(p, items, trigger, target);
    forall n | 0 <= n < |Urls(items)| && FirstAtTarget(p, items, target, n)
      ensures o == After(p, items, bytes, n) && n == o.evicted
    {
      StopsThere(p, items, bytes, target, n);
    }
    if o.evicted < |Urls(items)| {
      assert FirstAtTarget(p, items, target, o.evicted);
    }
  }

  /** A history ends at or below its target or without images, for every target, exactly when each round
      that brings the estimate to a new low is covered. Short images that come last, or that the rest
      of the loop outweighs, do no harm. */
  lemma ReachesTargetIff(p: Policy, items: seq<Item>, trigger: nat)
    requires IsSound(p) && trigger <= Size(p, items)
    ensures (forall target :: ReachesTarget(p, items, trigger, target)) <==>
            forall n :: 0 <= n < |Urls(items)| && IsLow(p, items, n) ==> IsCovered(p, items, n)
  {
    if forall n :: 0 <= n < |Urls(items)| && IsLow(p, items, n) ==> IsCovered(p, items, n) {
      forall target: nat ensures ReachesTarget(p, items, trigger, target) {
        CoveredReaches(p, items, trigger, target);
      }
    }
    if forall target :: ReachesTarget(p, items, trigger, target) {
      forall n | 0 <= n < |Urls(items)| && IsLow(p, items, n) ensures IsCovered(p, items, n) {
        ReachingCovers(p, items, trigger, n);
      }
    }
  }

  /** A history is left as it is exactly when it is under one of the limits or has no images. */
  lemma BudgetFixedPoint(p: Policy, items: seq<Item>, trigger: nat, target: nat)
    ensures Budgeted(p, items, trigger, target).items == items <==>
            Size(p, items) < trigger || Size(p, items) <= target || Urls(items) == []
  {
    var bytes := Size(p, items);
    if bytes >= trigger && bytes > target && Urls(items) != [] {
      EvictionIsOldestFirst(p, items, bytes, target);
      assert Evict(p, items, bytes, target).evicted > 0;
    }
  }

  /** Applying the budget again changes nothing, whatever the two limits, if no user image is short
      or the target was reached. */
  lemma BudgetIsIdempotent(p: Policy, items: seq<Item>, trigger: nat, target: nat)
    requires IsSound(p)
    ensures var once := Budgeted(p, items, trigger, target).items;
      NoShortImages(p, items) || Size(p, once) <= target ==> Budgeted(p, once, trigger, target).items == once
  {
    EvictionReclaimsEnough(p, items, trigger, target);
    BudgetFixedPoint(p, Budgeted(p, items, trigger, target).items, trigger, target);
  }

  // ---------- What eviction leaves alone ----------

  function NonImages(parts: seq<Part>): seq<Part> {
    if parts == [] then [] else (if parts[0].Image? then [] else [parts[0]]) + NonImages(parts[1..])
  }

  /** `b` is `a` with some images evicted: nothing else about it differs, and a tool result that
      lost an image says so, once. */
  ghost predicate Evolved(p: Policy, a: Item, b: Item) {
    match a
    case User(parts, reason, meta) =>
      && b.User? && b.reason == reason && b.meta == meta && |b.parts| == |parts|
      && forall i :: 0 <= i < |parts| ==>
           b.parts[i] == parts[i] || (parts[i].Image? && b.parts[i] == TextPart(p.placeholder))
    case ToolResult(id, content, images) =>
      && b.ToolResult? && b.callId == id && NonImages(b.images) == NonImages(images)
      && |PartUrls(b.images)| <= |PartUrls(images)|
      && (b.content == content || (!Contains(content, p.note) && b.content == content + ("\n\n" + p.note)))
      && (|PartUrls(b.images)| < |PartUrls(images)| ==> Contains(b.content, p.note))
    case _ => b == a
  }

  lemma NoteIsThere(p: Policy, content: string)
    ensures HasNote(p, WithNote(p, content)) && WithNote(p, WithNote(p, content)) == WithNote(p, content)
  {
    if !HasNote(p, content) {
      var r, k := WithNote(p, content), |content| + 2;
      assert r[k..k + |p.note|] == p.note;
      assert OccursAt(r, p.note, k);
    }
  }

  lemma EvolvedTransitive(p: Policy, a: Item, b: Item, c: Item)
    requires Evolved(p, a, b) && Evolved(p, b, c)
    ensures Evolved(p, a, c)
  {
    if a.ToolResult? {
      NoteIsThere(p, a.content);
    }
  }

  lemma {:induction false} NonImagesOfRemoved(parts: seq<Part>)
    requires PartUrls(parts) != []
    ensures NonImages(RemoveFirst(parts)) == NonImages(parts)
  {
    if !parts[0].Image? {
      NonImagesOfRemoved(parts[1..]);
      assert RemoveFirst(parts)[1..] == RemoveFirst(parts[1..]);
    }
  }

  lemma EvictItemEvolves(p: Policy, item: Item)
    requires ItemUrls(item) != []
    ensures Evolved(p, item, EvictFromItem(p, item))
  {
    if item.User? {
      ReplaceFirstIs(item.parts, TextPart(p.placeholder));
    } else {
      NoteIsThere(p, item.content);
      NonImagesOfRemoved(item.images);
      RemoveFirstUrls(item.images);
    }
  }

  ghost predicate AllEvolved(p: Policy, before: seq<Item>, after: seq<Item>) {
    |after| == |before| && forall i :: 0 <= i < |before| ==> Evolved(p, before[i], after[i])
  }

  lemma SelfEvolved(p: Policy, item: Item)
    ensures Evolved(p, item, item)
  {
  }

  lemma {:induction false} EvictFirstEvolves(p: Policy, items: seq<Item>)
    requires Urls(items) != []
    ensures AllEvolved(p, items, EvictFirst(p, items))
  {
    var head, rest, after := items[0], items[1..], EvictFirst(p, items);
    if ItemUrls(head) != [] {
      EvictItemEvolves(p, head);
      forall i | 0 <= i < |items| ensures Evolved(p, items[i], after[i]) {
        if i > 0 {
          SelfEvolved(p, items[i]);
        }
      }
    } else {
      assert Urls(items) == Urls(rest);
      EvictFirstEvolves(p, rest);
      SelfEvolved(p, head);
      forall i | 0 <= i < |items| ensures Evolved(p, items[i], after[i]) {
        if i > 0 {
          assert items[i] == rest[i - 1] && after[i] == EvictFirst(p, rest)[i - 1];
        }
      }
    }
  }

  /** Eviction is conservative, item by item. */
  lemma {:induction false} EvictionIsConservative(p: Policy, items: seq<Item>, running: nat, target: nat)
    ensures AllEvolved(p, items, Evict(p, items, running, target).items)
    decreases |Urls(items)|
  {
    if running > target && Urls(items) != [] {
      var next := EvictFirst(p, items);
      EvictFirstUrls(p, items);
      EvictFirstEvolves(p, items);
      EvictionIsConservative(p, next, Estimate(p, Victim(items), running), target);
      var last := Evict(p, items, running, target).items;
      forall i | 0 <= i < |items| ensures Evolved(p, items[i], last[i]) {
        EvolvedTransitive(p, items[i], next[i], last[i]);
      }
    } else {
      forall i | 0 <= i < |items| ensures Evolved(p, items[i], items[i]) {
        SelfEvolved(p, items[i]);
      }
    }
  }

  // ---------- A short image makes the loop miss its target ----------

  ghost predicate OnlyUsers(items: seq<Item>) {
    forall i :: 0 <= i < |items| ==> items[i].User?
  }

  lemma {:induction false} VictimIsUser(items: seq<Item>)
    requires Urls(items) != [] && OnlyUsers(items)
    ensures Victim(items).User?
  {
    if ItemUrls(items[0]) == [] {
      assert Urls(items) == Urls(items[1..]);
      VictimIsUser(items[1..]);
    }
  }

  lemma StaysOnlyUsers(p: Policy, items: seq<Item>)
    requires Urls(items) != [] && OnlyUsers(items)
    ensures OnlyUsers(EvictFirst(p, items)) && Urls(EvictFirst(p, items)) == Urls(items)[1..]
  {
    EvictFirstUrls(p, items);
    EvictFirstEvolves(p, items);
    forall i | 0 <= i < |items| ensures EvictFirst(p, items)[i].User? {
      assert Evolved(p, items[i], EvictFirst(p, items)[i]);
    }
  }

  /** One round of the loop over user images. */
  lemma UserRound(p: Policy, items: seq<Item>, running: nat)
    requires OnlyUsers(items) && Urls(items) != []
    ensures Estimate(p, Victim(items), running)
      == Saturating(running, Saturating(ImageBytes(p, Urls(items)[0]), PlaceholderBytes(p)))
    ensures Size(p, EvictFirst(p, items)) + ImageBytes(p, Urls(items)[0]) == Size(p, items) + PlaceholderBytes(p)
  {
    VictimIsUser(items);
    EvictFirstUrls(p, items);
    EvictFirstSize(p, items);
    EvictUserSize(p, Victim(items));
  }

  lemma EvictTwo(p: Policy, items: seq<Item>, running: nat, target: nat)
    requires Urls(items) != [] && Urls(EvictFirst(p, items)) != [] && running > target
    requires Estimate(p, Victim(items), running) == running
    requires Estimate(p, Victim(EvictFirst(p, items)), running) <= target
    ensures Evict(p, items, running, target).items == EvictFirst(p, EvictFirst(p, items))
  {
    var next := EvictFirst(p, items);
    assert Evict(p, next, running, target).items == EvictFirst(p, next);
  }

  /** Over user images alone, a short first image and a long second one: the loop stops after the
      two, with its estimate at the target and the body above its estimate by the shortfall. */
  lemma ShortfallIsUnseen(p: Policy, items: seq<Item>, trigger: nat, target: nat)
    requires OnlyUsers(items) && |Urls(items)| >= 2
    requires ImageBytes(p, Urls(items)[0]) <= PlaceholderBytes(p) <= ImageBytes(p, Urls(items)[1])
    requires trigger <= Size(p, items) && target < Size(p, items)
    requires target == Size(p, items) - (ImageBytes(p, Urls(items)[1]) - PlaceholderBytes(p))
    ensures var after := Budgeted(p, items, trigger, target).items;
      && Urls(after) == Urls(items)[2..]
      && Size(p, after) == target + (PlaceholderBytes(p) - ImageBytes(p, Urls(items)[0]))
  {
    var bytes, next := Size(p, items), EvictFirst(p, items);
    StaysOnlyUsers(p, items);
    UserRound(p, items, bytes);
    StaysOnlyUsers(p, next);
    UserRound(p, next, bytes);
    EvictTwo(p, items, bytes, target);
  }

  lemma {:induction false} ThreeImages(a: string, b: string, c: string)
    ensures PartUrls([Image(a), Image(b), Image(c)]) == [a, b, c]
  {
    assert [Image(a), Image(b), Image(c)][1..] == [Image(b), Image(c)];
    assert [Image(b), Image(c)][1..] == [Image(c)];
    assert PartUrls([Image(c)]) == [c];
    assert PartUrls([Image(b), Image(c)]) == [b, c];
  }

  /** So the target can be missed with images left. */
  lemma ShortImageMissesTarget(p: Policy, a: string, b: string, c: string) returns (items: seq<Item>, target: nat)
    requires ImageBytes(p, a) < PlaceholderBytes(p) < ImageBytes(p, b)
    ensures var o := Budgeted(p, items, 0, target); Size(p, o.items) > target && Urls(o.items) == [c]
  {
    items := [User([Image(a), Image(b), Image(c)], None, NO_META)];
    ThreeImages(a, b, c);
    assert items[1..] == [];
    assert Urls(items) == [a, b, c];
    SizeOutweighs(p, items);
    assert Weight(p, items) >= ImageBytes(p, b) by {
      assert Weight(p, items) == ItemWeight(p, items[0]) + Weight(p, []);
      var w := url => ImageBytes(p, url);
      assert [a, b, c][1..] == [b, c] && [b, c][1..] == [c];
      assert UrlTotal(w, [a, b, c]) >= w(b);
    }
    target := Size(p, items) - (ImageBytes(p, b) - PlaceholderBytes(p));
    ShortfallIsUnseen(p, items, 0, target);
  }

  // ---------- Finding the images, then evicting them in place ----------

  datatype Location = InUser(item: nat, part: nat) | InTool(item: nat)

  datatype Target = Target(at: Location, bytes: nat)

  function UserTargets(p: Policy, parts: seq<Part>, i: nat, j: nat): seq<Target> {
    if parts == [] then []
    else (if parts[0].Image? then [Target(InUser(i, j), ImageBytes(p, parts[0].url))] else [])
         + UserTargets(p, parts[1..], i, j + 1)
  }

  function ToolTargets(p: Policy, urls: seq<string>, i: nat): seq<Target> {
    if urls == [] then [] else [Target(InTool(i), ImageBytes(p, urls[0]))] + ToolTargets(p, urls[1..], i)
  }

  function ItemTargets(p: Policy, item: Item, i: nat): seq<Target> {
    match item
    case User(parts, _, _) => UserTargets(p, parts, i, 0)
    case ToolResult(_, _, images) => ToolTargets(p, PartUrls(images), i)
    case _ => []
  }

  /** Every image with its position, oldest first, the first item having index `i`. */
  function Targets(p: Policy, items: seq<Item>, i: nat): seq<Target> {
    if items == [] then [] else ItemTargets(p, items[0], i) + Targets(p, items[1..], i + 1)
  }

  lemma {:induction false} NoUserTargets(p: Policy, parts: seq<Part>, i: nat, j: nat)
    requires PartUrls(parts) == []
    ensures UserTargets(p, parts, i, j) == []
  {
    if parts != [] {
      assert !parts[0].Image?;
      NoUserTargets(p, parts[1..], i, j + 1);
    }
  }

  lemma UserTargetsOf(p: Policy, head: Part, rest: seq<Part>, i: nat, j: nat)
    ensures UserTargets(p, [head] + rest, i, j) ==
      (if head.Image? then [Target(InUser(i, j), ImageBytes(p, head.url))] else []) + UserTargets(p, rest, i, j + 1)
  {
    assert ([head] + rest)[1..] == rest;
  }

  /** The oldest image of a user item comes first, and evicting it leaves the other positions. */
  lemma {:induction false} FirstUserTarget(p: Policy, parts: seq<Part>, i: nat, j: nat)
    requires PartUrls(parts) != []
    ensures var ts := UserTargets(p, parts, i, j);
      && ts != [] && ts[0] == Target(InUser(i, j + FirstImage(parts)), ImageBytes(p, PartUrls(parts)[0]))
      && UserTargets(p, ReplaceFirst(parts, TextPart(p.placeholder)), i, j) == ts[1..]
  {
    var head, rest, text := parts[0], parts[1..], TextPart(p.placeholder);
    if head.Image? {
      UserTargetsOf(p, text, rest, i, j);
    } else {
      FirstUserTarget(p, rest, i, j + 1);
      UserTargetsOf(p, head, ReplaceFirst(rest, text), i, j);
    }
  }

  predicate Points(t: Target, item: Item, i: nat) {
    match item
    case User(parts, _, _) => PartUrls(parts) != [] && t.at == InUser(i, FirstImage(parts))
    case ToolResult(_, _, _) => t.at == InTool(i)
    case _ => false
  }

  lemma FirstItemTarget(p: Policy, item: Item, i: nat)
    requires ItemUrls(item) != []
    ensures var ts := ItemTargets(p, item, i);
      && ts != [] && Points(ts[0], item, i) && ts[0].bytes == ImageBytes(p, ItemUrls(item)[0])
      && ItemTargets(p, EvictFromItem(p, item), i) == ts[1..]
  {
    if item.User? {
      FirstUserTarget(p, item.parts, i, 0);
    } else {
      RemoveFirstUrls(item.images);
    }
  }

  lemma NoItemTargets(p: Policy, item: Item, i: nat)
    requires ItemUrls(item) == []
    ensures ItemTargets(p, item, i) == []
  {
    if item.User? {
      NoUserTargets(p, item.parts, i, 0);
    }
  }

  function VictimAt(items: seq<Item>): (k: nat)
    requires Urls(items) != []
    ensures k < |items| && items[k] == Victim(items)
  {
    if ItemUrls(items[0]) != [] then 0 else 1 + VictimAt(items[1..])
  }

  lemma {:induction false} EvictFirstInPlace(p: Policy, items: seq<Item>)
    requires Urls(items) != []
    ensures EvictFirst(p, items) == items[VictimAt(items) := EvictFromItem(p, Victim(items))]
  {
    if ItemUrls(items[0]) == [] {
      assert Urls(items) == Urls(items[1..]);
      EvictFirstInPlace(p, items[1..]);
    }
  }

  lemma {:induction false} FirstTarget(p: Policy, items: seq<Item>, i: nat)
    requires Urls(items) != []
    ensures var ts := Targets(p, items, i);
      ts != [] && Points(ts[0], Victim(items), i + VictimAt(items)) && ts[0].bytes == ImageBytes(p, Urls(items)[0])
    decreases |items|
  {
    var head, rest := items[0], items[1..];
    if ItemUrls(head) != [] {
      FirstItemTarget(p, head, i);
      FirstOfConcat(ItemTargets(p, head, i), Targets(p, rest, i + 1));
      FirstOfConcat(ItemUrls(head), Urls(rest));
    } else {
      NoItemTargets(p, head, i);
      FirstTarget(p, rest, i + 1);
    }
  }

  lemma TargetsOf(p: Policy, item: Item, rest: seq<Item>, i: nat)
    ensures Targets(p, [item] + rest, i) == ItemTargets(p, item, i) + Targets(p, rest, i + 1)
  {
    assert ([item] + rest)[1..] == rest;
  }

  /** The list of positions found before the loop stays right while the loop runs. */
  lemma {:induction false} OtherTargets(p: Policy, items: seq<Item>, i: nat)
    requires Urls(items) != []
    ensures Targets(p, items, i) != [] && Targets(p, EvictFirst(p, items), i) == Targets(p, items, i)[1..]
    decreases |items|
  {
    var head, rest := items[0], items[1..];
    if ItemUrls(head) != [] {
      FirstItemTarget(p, head, i);
      TargetsOf(p, EvictFromItem(p, head), rest, i);
      TailOfConcat(ItemTargets(p, head, i), Targets(p, rest, i + 1));
    } else {
      assert Urls(items) == Urls(rest);
      NoItemTargets(p, head, i);
      OtherTargets(p, rest, i + 1);
      TargetsOf(p, head, EvictFirst(p, rest), i);
    }
  }

  lemma {:induction false} NoTargets(p: Policy, items: seq<Item>, i: nat)
    requires Urls(items) == []
    ensures Targets(p, items, i) == []
    decreases |items|
  {
    if items != [] {
      NoItemTargets(p, items[0], i);
      NoTargets(p, items[1..], i + 1);
    }
  }

  method DiscoverUser(p: Policy, parts: seq<Part>, i: nat, images: seq<Target>) returns (found: seq<Target>)
    ensures found == images + UserTargets(p, parts, i, 0)
  {
    found := images;
    ghost var rest := UserTargets(p, parts, i, 0);
    assert parts[0..] == parts;
    for j := 0 to |parts|
      invariant rest == UserTargets(p, parts[j..], i, j) && found + rest == images + UserTargets(p, parts, i, 0)
    {
      assert parts[j..][1..] == parts[j + 1..];
      rest := UserTargets(p, parts[j + 1..], i, j + 1);
      if parts[j].Image? {
        var t := Target(InUser(i, j), ImageBytes(p, parts[j].url));
        Assoc(found, [t], rest);
        found := found + [t];
      }
    }
  }

  lemma ToolTargetsStep(p: Policy, parts: seq<Part>, i: nat, j: nat)
    requires j < |parts|
    ensures ToolTargets(p, PartUrls(parts[j..]), i) ==
      (if parts[j].Image? then [Target(InTool(i), ImageBytes(p, parts[j].url))] else [])
        + ToolTargets(p, PartUrls(parts[j + 1..]), i)
  {
    assert parts[j..][1..] == parts[j + 1..];
    if parts[j].Image? {
      assert PartUrls(parts[j..])[1..] == PartUrls(parts[j + 1..]);
    } else {
      assert PartUrls(parts[j..]) == PartUrls(parts[j + 1..]);
    }
  }

  method DiscoverTool(p: Policy, parts: seq<Part>, i: nat, images: seq<Target>) returns (found: seq<Target>)
    ensures found == images + ToolTargets(p, PartUrls(parts), i)
  {
    found := images;
    ghost var rest := ToolTargets(p, PartUrls(parts), i);
    assert parts[0..] == parts;
    for j := 0 to |parts|
      invariant rest == ToolTargets(p, PartUrls(parts[j..]), i)
        && found + rest == images + ToolTargets(p, PartUrls(parts), i)
    {
      ToolTargetsStep(p, parts, i, j);
      rest := ToolTargets(p, PartUrls(parts[j + 1..]), i);
      if parts[j].Image? {
        var t := Target(InTool(i), ImageBytes(p, parts[j].url));
        Assoc(found, [t], rest);
        found := found + [t];
      }
    }
  }

  method DiscoverItem(p: Policy, item: Item, i: nat, images: seq<Target>) returns (found: seq<Target>)
    ensures found == images + ItemTargets(p, item, i)
  {
    match item {
      case User(parts, _, _) => found := DiscoverUser(p, parts, i, images);
      case ToolResult(_, _, tool) => found := DiscoverTool(p, tool, i, images);
      case _ => found := images;
    }
  }

  method Discover(p: Policy, conversation: seq<Item>) returns (images: seq<Target>)
    ensures images == Targets(p, conversation, 0)
  {
    images := [];
    ghost var rest := Targets(p, conversation, 0);
    assert conversation[0..] == conversation;
    for i := 0 to |conversation|
      invariant rest == Targets(p, conversation[i..], i) && images + rest == Targets(p, conversation, 0)
    {
      assert conversation[i..][1..] == conversation[i + 1..];
      rest := Targets(p, conversation[i + 1..], i + 1);
      Assoc(images, ItemTargets(p, conversation[i], i), rest);
      images := DiscoverItem(p, conversation[i], i, images);
    }
  }

  /** The index of the first image of a list that has one. */
  method Position(images: seq<Part>) returns (k: nat)
    requires PartUrls(images) != []
    ensures k == FirstImage(images)
  {
    k := 0;
    assert images[0..] == images;
    while !images[k].Image?
      invariant k < |images| && PartUrls(images[k..]) != [] && FirstImage(images) == k + FirstImage(images[k..])
      decreases |images| - k
    {
      assert images[k..][1..] == images[k + 1..];
      k := k + 1;
    }
  }

  /** One round of the loop on the mutable history. */
  method EvictAt(p: Policy, conversation: array<Item>, t: Target, running: nat) returns (running': nat)
    requires Urls(conversation[..]) != []
    requires Points(t, Victim(conversation[..]), VictimAt(conversation[..]))
      && t.bytes == ImageBytes(p, Urls(conversation[..])[0])
    modifies conversation
    ensures conversation[..] == EvictFirst(p, old(conversation[..]))
    ensures running' == Estimate(p, Victim(old(conversation[..])), running)
  {
    ghost var items := conversation[..];
    EvictFirstInPlace(p, items);
    match t.at {
      case InUser(i, j) =>
        var user := conversation[i];
        ReplaceFirstIs(user.parts, TextPart(p.placeholder));
        conversation[i] := User(user.parts[j := TextPart(p.placeholder)], user.reason, user.meta);
        running' := Saturating(running, Saturating(t.bytes, PlaceholderBytes(p)));
      case InTool(i) =>
        var tool := conversation[i];
        var k := Position(tool.images);
        RemoveFirstIs(tool.images);
        var left := tool.images[..k] + tool.images[k + 1..];
        running' := Saturating(running, t.bytes + if left != [] then 1 else 0);
        var content := tool.content;
        if !HasNote(p, content) {
          content := content + NoteSuffix(p);
          running' := running' + NoteBytes(p);
        }
        conversation[i] := ToolResult(tool.callId, content, left);
    }
  }

  method EvictImagesToBudget(p: Policy, conversation: array<Item>, current: nat, target: nat) returns (evicted: nat)
    modifies conversation
    ensures var o := Evict(p, old(conversation[..]), current, target);
      conversation[..] == o.items && evicted == o.evicted
  {
    var images := Discover(p, conversation[..]);
    var running: nat := current;
    evicted := 0;
    ghost var o := Evict(p, conversation[..], current, target);
    while images != [] && running > target
      invariant images == Targets(p, conversation[..], 0)
      invariant Remaining(p, conversation[..], running, target, evicted, o)
      decreases |images|
    {
      running := EvictOne(p, conversation, images[0], running, target, evicted, o);
      images, evicted := images[1..], evicted + 1;
    }
    Finished(p, conversation[..], running, target, evicted, o);
  }

  method EvictOne(p: Policy, conversation: array<Item>, t: Target, running: nat,
    ghost target: nat, ghost evicted: nat, ghost o: Outcome)
    returns (running': nat)
    requires Targets(p, conversation[..], 0) != [] && t == Targets(p, conversation[..], 0)[0] && running > target
    requires Remaining(p, conversation[..], running, target, evicted, o)
    modifies conversation
    ensures Targets(p, conversation[..], 0) == old(Targets(p, conversation[..], 0))[1..]
    ensures Remaining(p, conversation[..], running', target, evicted + 1, o)
  {
    TargetsOrNot(p, conversation[..]);
    FirstTarget(p, conversation[..], 0);
    OtherTargets(p, conversation[..], 0);
    RoundRemains(p, conversation[..], running, target, evicted, o);
    running' := EvictAt(p, conversation, t, running);
  }

  lemma Finished(p: Policy, items: seq<Item>, running: nat, target: nat, evicted: nat, o: Outcome)
    requires Remaining(p, items, running, target, evicted, o) && (running <= target || Targets(p, items, 0) == [])
    ensures items == o.items && evicted == o.evicted
  {
    TargetsOrNot(p, items);
  }

  /** What the loop still has to do leads to the outcome `o`. */
  ghost predicate Remaining(p: Policy, items: seq<Item>, running: nat, target: nat, evicted: nat, o: Outcome) {
    var now := Evict(p, items, running, target);
    now.items == o.items && evicted + now.evicted == o.evicted
  }

  lemma TargetsOrNot(p: Policy, items: seq<Item>)
    ensures Targets(p, items, 0) == [] <==> Urls(items) == []
  {
    if Urls(items) == [] {
      NoTargets(p, items, 0);
    } else {
      FirstTarget(p, items, 0);
    }
  }

  lemma RoundRemains(p: Policy, items: seq<Item>, running: nat, target: nat, evicted: nat, o: Outcome)
    requires Urls(items) != [] && running > target && Remaining(p, items, running, target, evicted, o)
    ensures Remaining(p, EvictFirst(p, items), Estimate(p, Victim(items), running), target, evicted + 1, o)
  {
  }

  method InlineImageCount(conversation: seq<Item>) returns (n: nat)
    ensures n == |Urls(conversation)|
  {
    n := 0;
    ghost var rest := Urls(conversation);
    assert conversation[0..] == conversation;
    for i := 0 to |conversation|
      invariant rest == Urls(conversation[i..]) && n + |rest| == |Urls(conversation)|
    {
      assert conversation[i..][1..] == conversation[i + 1..];
      rest := Urls(conversation[i + 1..]);
      n := n + |ItemUrls(conversation[i])|;
    }
  }

  datatype BudgetOutcome = BudgetOutcome(
    bodyBytes: nat, bodyBytesAfter: nat, inlineImages: nat, needsImageCompaction: bool, evicted: nat)

  /** The reported figures are the measured sizes of the two histories, and the images are conserved. */
  method ApplyImageBudgetWithLimits(p: Policy, items: seq<Item>, trigger: nat, target: nat)
    returns (result: seq<Item>, outcome: BudgetOutcome)
    requires p.u == EncodedUrlBytes
    ensures result == Budgeted(p, items, trigger, target).items
    ensures outcome.bodyBytes == Size(p, items) && outcome.bodyBytesAfter == Size(p, result)
    ensures outcome.inlineImages == |Urls(items)| == |Urls(result)| + outcome.evicted
    ensures outcome.needsImageCompaction <==> Size(p, items) >= trigger
    ensures Urls(result) == Urls(items)[outcome.evicted..]
  {
    var bytes := ConversationBodyBytes(p.lay, items);
    var count := InlineImageCount(items);
    var evicted, after := 0, bytes;
    result := items;
    if bytes >= trigger && bytes > target {
      var conversation := new Item[|items|](i requires 0 <= i < |items| => items[i]);
      assert conversation[..] == items;
      evicted := EvictImagesToBudget(p, conversation, bytes, target);
      result := conversation[..];
      EvictionIsOldestFirst(p, items, bytes, target);
      if evicted == 0 {
        NoneEvicted(p, items, bytes, target);
      } else {
        after := ConversationBodyBytes(p.lay, result);
      }
    }
    outcome := BudgetOutcome(bytes, after, count, bytes >= trigger, evicted);
  }

  lemma NoneEvicted(p: Policy, items: seq<Item>, running: nat, target: nat)
    requires Evict(p, items, running, target).evicted == 0
    ensures Evict(p, items, running, target).items == items
  {
  }
}
