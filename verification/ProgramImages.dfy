/** The image budget with the program's own texts, JSON layout and limits. */
module ProgramImages {
  import opened Text
  import opened Utf8
  import opened Conversation
  import opened JsonSize
  import opened ImageBudget

  const MAX_REQUEST_BYTES: nat := 50 * 1024 * 1024
  const TRIGGER_BYTES: nat := MAX_REQUEST_BYTES - 3 * 1024 * 1024
  const RECLAIM_TARGET_BYTES: nat := MAX_REQUEST_BYTES / 2

  const PLACEHOLDER :=
    "[An earlier image was removed to keep the request within its size limit and is no longer visible. Do not describe or reason about its contents from memory; ask the user to re-share it if you need to see it again.]"

  const NOTE :=
    "[One or more images from this tool result were removed to keep the request within its size limit and are no longer visible. Do not describe or reason about their contents from memory.]"

  const TEXT_HEAD := "{\"type\":\"text\",\"text\":\""
  const IMAGE_HEAD := "{\"type\":\"image\",\"url\":\""
  const USER_HEAD := "{\"type\":\"user\",\"content\":["
  const USER_END := "]}"
  const TOOL_END := "\"}"
  const IMAGES_HEAD := "\",\"images\":["
  const IMAGES_END := "]}"

  /** The layout, given how the fields and items that eviction never touches are written. */
  function ProgramPolicy(userEnd: (Option<SyntheticReason>, UserMeta) -> string, other: Item -> string): Policy {
    Policy(
      Layout(TEXT_HEAD, IMAGE_HEAD, "\"}",
             USER_HEAD, userEnd,
             id => "{\"type\":\"tool_result\",\"tool_call_id\":\"" + Escape(id) + "\",\"content\":\"",
             TOOL_END, IMAGES_HEAD, IMAGES_END, other),
      EncodedUrlBytes, PLACEHOLDER, NOTE)
  }

  lemma ProgramIsSound(userEnd: (Option<SyntheticReason>, UserMeta) -> string, other: Item -> string)
    ensures IsSound(ProgramPolicy(userEnd, other))
  {
    AsciiByteLen(TOOL_END);
    AsciiByteLen(IMAGES_END);
  }

  /** With the shipped limits, whose target is below the trigger: histories under 47 MiB are left
      alone, and any other ends at or below 25 MiB or without images, for good. */
  ghost predicate KeepsWithinLimits(p: Policy, items: seq<Item>) {
    var once := Budgeted(p, items, TRIGGER_BYTES, RECLAIM_TARGET_BYTES).items;
    && RECLAIM_TARGET_BYTES < TRIGGER_BYTES
    && (Size(p, items) < TRIGGER_BYTES ==> once == items)
    && (NoShortImages(p, items) ==> Budgeted(p, once, TRIGGER_BYTES, RECLAIM_TARGET_BYTES).items == once)
    && (NoShortImages(p, items) && Size(p, items) >= TRIGGER_BYTES ==>
        Size(p, once) <= RECLAIM_TARGET_BYTES || Urls(once) == [])
  }

  lemma SoundBudget(p: Policy, items: seq<Item>)
    requires IsSound(p)
    ensures KeepsWithinLimits(p, items)
  {
    EvictionReclaimsEnough(p, items, TRIGGER_BYTES, RECLAIM_TARGET_BYTES);
    BudgetIsIdempotent(p, items, TRIGGER_BYTES, RECLAIM_TARGET_BYTES);
  }

  lemma ProgramBudget(userEnd: (Option<SyntheticReason>, UserMeta) -> string, other: Item -> string, items: seq<Item>)
    ensures KeepsWithinLimits(ProgramPolicy(userEnd, other), items)
  {
    ProgramIsSound(userEnd, other);
    SoundBudget(ProgramPolicy(userEnd, other), items);
  }

  lemma {:induction false} ByteBounds(s: string)
    ensures |s| <= ByteLen(s) <= 4 * |s|
  {
    if s != [] {
      ByteBounds(s[1..]);
    }
  }

  lemma EmptyUrlIsShort(p: Policy)
    requires p.u == EncodedUrlBytes && 4 * |p.lay.imageHead| < |p.placeholder|
    ensures ImageBytes(p, []) < PlaceholderBytes(p)
  {
    ByteBounds(p.lay.imageHead);
    ByteBounds(p.placeholder);
    EscapeLength(p.placeholder);
    UrlMeasure([]);
  }

  lemma CommaOccurs(url: string, i: nat)
    requires OccursAt(url, ",", i)
    ensures ',' in url
  {
    assert url[i] == url[i..i + 1][0];
  }

  lemma NoCommaNoTail(url: string)
    requires ',' !in url
    ensures Base64Tail(url).None?
  {
    var k := Find(url, ",");
    if k.Some? {
      CommaOccurs(url, k.value);
    }
  }

  function Letters(n: nat): string { seq(n, _ => 'A') }

  /** Letters alone hold no comma, so are no data URI, and take a byte each. */
  lemma LettersMeasure(n: nat)
    ensures EncodedUrlBytes(Letters(n)) == n
  {
    var letters := Letters(n);
    NoCommaNoTail(letters);
    assert NeedsNoEscape(letters);
    EscapeLength(letters);
    AsciiByteLen(letters);
  }

  lemma {:induction false} EscapedBound(s: string)
    ensures EscapedBytes(s) <= 24 * |s|
  {
    if s != [] {
      EscapedBound(s[1..]);
      ByteLenConcat(EscapeChar(s[0]), Escape(s[1..]));
      ByteBounds(EscapeChar(s[0]));
    }
  }

  function Three(a: string, b: string, c: string): seq<Item> {
    [User([Image(a), Image(b), Image(c)], None, NO_META)]
  }

  /** What such a history takes beside its images. */
  function ThreeFrame(p: Policy): nat { 4 + ByteLen(p.lay.userHead) + ByteLen(p.lay.userEnd(None, NO_META)) }

  lemma ThreeParts(p: Policy, a: string, b: string, c: string)
    ensures PartsTotal(p.lay, p.u, [Image(a), Image(b), Image(c)])
         == ImageBytes(p, a) + ImageBytes(p, b) + ImageBytes(p, c)
  {
    assert [Image(a), Image(b), Image(c)] == [Image(a)] + ([Image(b)] + ([Image(c)] + []));
    TotalOf(p, Image(a), [Image(b)] + ([Image(c)] + []));
    TotalOf(p, Image(b), [Image(c)] + []);
    TotalOf(p, Image(c), []);
  }

  lemma ThreeSize(p: Policy, a: string, b: string, c: string)
    ensures Size(p, Three(a, b, c)) == ThreeFrame(p) + ImageBytes(p, a) + ImageBytes(p, b) + ImageBytes(p, c)
    ensures Urls(Three(a, b, c)) == [a, b, c] && OnlyUsers(Three(a, b, c))
  {
    var item := User([Image(a), Image(b), Image(c)], None, NO_META);
    ThreeParts(p, a, b, c);
    ThreeImages(a, b, c);
    assert Three(a, b, c) == [item] + [];
    ItemUrlsOf(item, []);
    assert ItemUrls(item) == [a, b, c];
    assert Three(a, b, c)[1..] == [];
    assert ItemsTotal(p.lay, p.u, Three(a, b, c)) == ItemSize(p.lay, p.u, item);
  }

  /** The condition is needed, at any limits that leave room for three images: an empty URL, a long one
      and a third whose length is chosen end above the target with the third image left. */
  lemma PlainUrlsMissTarget(p: Policy, trigger: nat, target: nat) returns (items: seq<Item>)
    requires p.u == EncodedUrlBytes && ImageBytes(p, []) < PlaceholderBytes(p)
    requires ThreeFrame(p) + 2 * ImageBytes(p, []) + PlaceholderBytes(p) <= target
    ensures Size(p, items) >= trigger
    ensures var after := Budgeted(p, items, trigger, target).items; Size(p, after) > target && |Urls(after)| == 1
  {
    UrlMeasure([]);
    var m := target + trigger + PlaceholderBytes(p) + 1;
    var n := target - ThreeFrame(p) - 2 * ImageBytes(p, []) - PlaceholderBytes(p);
    LettersMeasure(m);
    LettersMeasure(n);
    items := Three([], Letters(m), Letters(n));
    ThreeSize(p, [], Letters(m), Letters(n));
    ShortfallIsUnseen(p, items, trigger, target);
  }

  /** The lengths that matter of the shipped texts. */
  ghost predicate HasShape(p: Policy) {
    && p.u == EncodedUrlBytes && |p.lay.imageHead| < 30 && |p.lay.textHead| < 30 && |p.lay.userHead| < 40
    && |p.lay.partEnd| == 2 && p.lay.userEnd(None, NO_META) == USER_END && 120 < |p.placeholder| < 300
  }

  lemma ProgramHasShape(userEnd: (Option<SyntheticReason>, UserMeta) -> string, other: Item -> string)
    requires userEnd(None, NO_META) == USER_END
    ensures HasShape(ProgramPolicy(userEnd, other))
  {
    assert |IMAGE_HEAD| < 30 && |TEXT_HEAD| < 30 && |USER_HEAD| < 40;
    assert 120 < |PLACEHOLDER| < 300;
  }

  lemma RoomForThree(p: Policy)
    requires HasShape(p)
    ensures ImageBytes(p, []) < PlaceholderBytes(p)
    ensures ThreeFrame(p) + 2 * ImageBytes(p, []) + PlaceholderBytes(p) <= 20_000
  {
    EmptyUrlIsShort(p);
    UrlMeasure([]);
    ByteBounds(p.lay.imageHead);
    ByteBounds(p.lay.textHead);
    ByteBounds(p.lay.userHead);
    ByteBounds(p.lay.partEnd);
    ByteBounds(USER_END);
    EscapedBound(p.placeholder);
  }

  /** A history at the trigger that ends above the target with an image left. */
  ghost predicate Misses(p: Policy, items: seq<Item>, trigger: nat, target: nat) {
    var after := Budgeted(p, items, trigger, target).items;
    Size(p, items) >= trigger && Size(p, after) > target && |Urls(after)| == 1
  }

  lemma ShapeMisses(p: Policy, trigger: nat, target: nat) returns (items: seq<Item>)
    requires HasShape(p) && target >= 20_000
    ensures Misses(p, items, trigger, target)
  {
    RoomForThree(p);
    items := PlainUrlsMissTarget(p, trigger, target);
  }

  /** With the shipped texts, layout and limits, for user items whose optional fields are all absent. */
  lemma ProgramMissesTarget(userEnd: (Option<SyntheticReason>, UserMeta) -> string, other: Item -> string)
    returns (items: seq<Item>)
    requires userEnd(None, NO_META) == USER_END
    ensures Misses(ProgramPolicy(userEnd, other), items, TRIGGER_BYTES, RECLAIM_TARGET_BYTES)
  {
    ProgramHasShape(userEnd, other);
    items := ShapeMisses(ProgramPolicy(userEnd, other), TRIGGER_BYTES, RECLAIM_TARGET_BYTES);
  }
}
