/** The serialized size of a conversation, and the fast way to measure it. */
module JsonSize {
  import opened Text
  import opened Utf8
  import opened Conversation

  // ---------- JSON strings (section 7 of RFC 8259, as serde_json writes them) ----------

  function HexDigit(n: nat): char
    requires n < 16
  {
    if n < 10 then ('0' as int + n) as char else ('a' as int + (n - 10)) as char
  }

  function EscapeChar(c: char): (r: string)
    ensures |r| > 0 && (r == [c] || (c as int < 0x80 && |r| >= 2 && forall i :: 0 <= i < |r| ==> r[i] as int < 0x80))
  {
    var n := c as int;
    if c == '\"' then "\\\""
    else if c == '\\' then "\\\\"
    else if n == 8 then "\\b"
    else if n == 12 then "\\f"
    else if c == '\n' then "\\n"
    else if c == '\r' then "\\r"
    else if c == '\t' then "\\t"
    else if n < 0x20 then ['\\', 'u', '0', '0', HexDigit(n / 16), HexDigit(n % 16)]
    else [c]
  }

  function Escape(s: string): string {
    if s == [] then [] else EscapeChar(s[0]) + Escape(s[1..])
  }

  /** No character needs escaping. */
  predicate NeedsNoEscape(s: string) {
    forall i :: 0 <= i < |s| ==> EscapeChar(s[i]) == [s[i]]
  }

  lemma {:induction false} EscapeConcat(s: string, t: string)
    ensures Escape(s + t) == Escape(s) + Escape(t)
  {
    if s == [] {
      assert s + t == t;
    } else {
      assert (s + t)[1..] == s[1..] + t;
      EscapeConcat(s[1..], t);
      Assoc(EscapeChar(s[0]), Escape(s[1..]), Escape(t));
    }
  }

  lemma EscapeCharLength(c: char)
    ensures ByteLen(EscapeChar(c)) >= ByteLen([c])
    ensures ByteLen(EscapeChar(c)) == ByteLen([c]) <==> EscapeChar(c) == [c]
  {
    if EscapeChar(c) != [c] {
      AsciiByteLen(EscapeChar(c));
      AsciiByteLen([c]);
    }
  }

  /** Escaping never shortens, and keeps the length exactly of plain text. */
  lemma {:induction false} EscapeLength(s: string)
    ensures ByteLen(Escape(s)) >= ByteLen(s)
    ensures ByteLen(Escape(s)) == ByteLen(s) <==> NeedsNoEscape(s)
  {
    if s != [] {
      EscapeLength(s[1..]);
      EscapeCharLength(s[0]);
      ByteLenConcat(EscapeChar(s[0]), Escape(s[1..]));
      ByteLenConcat([s[0]], s[1..]);
      assert s == [s[0]] + s[1..];
      assert NeedsNoEscape(s) <==> EscapeChar(s[0]) == [s[0]] && NeedsNoEscape(s[1..]) by {
        assert forall i :: 0 <= i < |s| - 1 ==> s[1..][i] == s[i + 1];
        assert NeedsNoEscape(s[1..]) ==> forall i :: 1 <= i < |s| ==> EscapeChar(s[i]) == [s[i]] by {
          assert forall i :: 1 <= i < |s| ==> s[i] == s[1..][i - 1];
        }
      }
    }
  }

  /** The characters with an escape of their own. */
  predicate HasShortEscape(c: char) { c in ['\"', '\\', '\n', '\r', '\t'] || c as int == 8 || c as int == 12 }

  /** What each character takes: two bytes, six, or its own length. */
  lemma EscapedCharBytes(c: char)
    ensures ByteLen(EscapeChar(c)) ==
      if HasShortEscape(c) then 2 else if (c as int) < 0x20 then 6 else ByteLen([c])
  {
    if EscapeChar(c) != [c] {
      AsciiByteLen(EscapeChar(c));
    }
  }

  function HexValue(c: char): Option<nat> {
    var n := c as int;
    if '0' as int <= n <= '9' as int then Some(n - '0' as int)
    else if 'a' as int <= n <= 'f' as int then Some(n - 'a' as int + 10)
    else if 'A' as int <= n <= 'F' as int then Some(n - 'A' as int + 10)
    else None
  }

  /** The character of an escape such as `\n`. */
  function ShortEscape(c: char): Option<char> {
    if c in ['\"', '\\', '/'] then Some(c)
    else if c == 'b' then Some(8 as char)
    else if c == 'f' then Some(12 as char)
    else if c == 'n' then Some('\n')
    else if c == 'r' then Some('\r')
    else if c == 't' then Some('\t')
    else None
  }

  /** The character of four hexadecimal digits, unless they name half a surrogate pair. */
  function HexChar(s: string): Option<char>
    requires |s| == 4
  {
    match (HexValue(s[0]), HexValue(s[1]), HexValue(s[2]), HexValue(s[3]))
    case (Some(a), Some(b), Some(c), Some(d)) =>
      var n := 4096 * a + 256 * b + 16 * c + d;
      if n < 0xD800 || 0xE000 <= n < 0x1_0000 then Some(n as char) else None
    case (_, _, _, _) => None
  }

  function Prepend(c: Option<char>, s: Option<string>): Option<string> {
    if c.None? || s.None? then None else Some([c.value] + s.value)
  }

  /** Reading the inside of a JSON string; a raw quote or control character is refused. */
  function Unescape(s: string): Option<string>
    decreases |s|
  {
    if s == [] then Some([])
    else if s[0] != '\\' then
      if s[0] == '\"' || (s[0] as int) < 0x20 then None else Prepend(Some(s[0]), Unescape(s[1..]))
    else if |s| >= 6 && s[1] == 'u' then Prepend(HexChar(s[2..6]), Unescape(s[6..]))
    else if |s| >= 2 then Prepend(ShortEscape(s[1]), Unescape(s[2..]))
    else None
  }

  lemma HexRoundTrip(n: nat)
    requires n < 0x20
    ensures HexChar(['0', '0', HexDigit(n / 16), HexDigit(n % 16)]) == Some(n as char)
  {
  }

  lemma UnescapeFirst(c: char, rest: string)
    ensures Unescape(EscapeChar(c) + rest) == Prepend(Some(c), Unescape(rest))
  {
    var first := EscapeChar(c);
    var s := first + rest;
    assert s[|first|..] == rest;
    if HasShortEscape(c) {
      assert s[1] == first[1];
    } else if (c as int) < 0x20 {
      var n := c as int;
      HexRoundTrip(n);
      assert s[2..6] == ['0', '0', HexDigit(n / 16), HexDigit(n % 16)];
    }
  }

  /** What escaping writes is a JSON string that reads back as the text. */
  lemma {:induction false} EscapeRoundTrip(s: string)
    ensures Unescape(Escape(s)) == Some(s)
  {
    if s != [] {
      EscapeRoundTrip(s[1..]);
      UnescapeFirst(s[0], Escape(s[1..]));
      assert s == [s[0]] + s[1..];
    }
  }

  // ---------- Image URLs ----------

  function EscapedBytes(s: string): nat {
    ByteLen(Escape(s))
  }

  /** The tail of a base64 data URI: what follows the first comma after a `data:...;base64` header. */
  function Base64Tail(url: string): (r: Option<string>)
    ensures r.Some? ==> |r.value| < |url|
  {
    match Find(url, ",")
    case None => None
    case Some(k) => if "data:" <= url[..k] && EndsWith(url[..k], ";base64") then Some(url[k + 1..]) else None
  }

  predicate EndsWith(s: string, t: string) {
    |t| <= |s| && s[|s| - |t|..] == t
  }

  lemma FirstComma(header: string, tail: string)
    requires ',' !in header
    ensures Find(header + ("," + tail), ",") == Some(|header|)
  {
    var url := header + ("," + tail);
    assert OccursAt(url, ",", |header|);
    var k := Find(url, ",").value;
    assert url[k] == url[k..k + 1][0];
  }

  lemma HoldsComma(s: string)
    requires Contains(s, ",")
    ensures ',' in s
  {
    var k: nat :| OccursAt(s, ",", k);
    assert s[k] == s[k..k + 1][0];
  }

  /** A tail is found behind the first comma, exactly when what precedes it says base64 data. */
  lemma Base64TailIff(header: string, tail: string)
    requires ',' !in header
    ensures Base64Tail(header + ("," + tail)) == Some(tail) <==> exists media :: header == "data:" + media + ";base64"
    ensures Base64Tail(header + ("," + tail)) != Some(tail) ==> Base64Tail(header + ("," + tail)) == None
    ensures Base64Tail(header) == None
  {
    var url := header + ("," + tail);
    FirstComma(header, tail);
    assert url[..|header|] == header && url[|header| + 1..] == tail;
    Base64HeaderIff(header);
    if Contains(header, ",") {
      HoldsComma(header);
    }
  }

  lemma Base64HeaderIff(header: string)
    ensures "data:" <= header && EndsWith(header, ";base64") <==> exists media :: header == "data:" + media + ";base64"
  {
    if "data:" <= header && EndsWith(header, ";base64") {
      assert |header| >= 12 by {
        assert header[4] == ':';
        assert header[|header| - 7..] == ";base64";
      }
      var media := header[5..|header| - 7];
      assert header == "data:" + media + ";base64";
    }
    if media :| header == "data:" + media + ";base64" {
      assert header[..5] == "data:" && header[|header| - 7..] == ";base64";
    }
  }

  /** The fast measure of a URL: only the header of a base64 data URI is scanned for escapes. */
  function EncodedUrlBytes(url: string): nat {
    match Base64Tail(url)
    case None => EscapedBytes(url)
    case Some(tail) => EscapedBytes(url[..|url| - |tail| - 1]) + 1 + ByteLen(tail)
  }

  predicate HasPlainTail(url: string) {
    var tail := Base64Tail(url);
    tail.Some? ==> NeedsNoEscape(tail.value)
  }

  lemma DataUriParts(url: string)
    requires Base64Tail(url).Some?
    ensures var tail := Base64Tail(url).value;
      url == url[..|url| - |tail| - 1] + ("," + tail)
  {
    var k := Find(url, ",").value;
    assert url[k..k + 1][0] == url[k];
  }

  lemma EscapedParts(header: string, tail: string)
    ensures EscapedBytes(header + ("," + tail)) == EscapedBytes(header) + 1 + EscapedBytes(tail)
  {
    EscapeConcat(header, "," + tail);
    EscapeConcat(",", tail);
    assert Escape(",") == ",";
    ByteLenConcat(Escape(header), "," + Escape(tail));
    ByteLenConcat(",", Escape(tail));
    AsciiByteLen(",");
  }

  /** The fast measure never overstates a URL, and is exact precisely when its tail is plain. */
  lemma UrlMeasure(url: string)
    ensures EncodedUrlBytes(url) <= EscapedBytes(url)
    ensures EncodedUrlBytes(url) == EscapedBytes(url) <==> HasPlainTail(url)
  {
    if Base64Tail(url).Some? {
      var tail := Base64Tail(url).value;
      DataUriParts(url);
      EscapedParts(url[..|url| - |tail| - 1], tail);
      EscapeLength(tail);
    }
  }

  // ---------- Serialized items ----------

  /** The fixed text around the fields that eviction touches, and the fields it does not. */
  datatype Layout = Layout(
    textHead: string, imageHead: string, partEnd: string,
    userHead: string, userEnd: (Option<SyntheticReason>, UserMeta) -> string,
    toolHead: string -> string, toolEnd: string, imagesHead: string, imagesEnd: string,
    other: Item -> string)

  function PartJson(lay: Layout, p: Part): string {
    match p
    case TextPart(text) => lay.textHead + Escape(text) + lay.partEnd
    case Image(url) => lay.imageHead + Escape(url) + lay.partEnd
  }

  function PartsJson(lay: Layout, parts: seq<Part>): string {
    if parts == [] then []
    else if |parts| == 1 then PartJson(lay, parts[0])
    else PartJson(lay, parts[0]) + ("," + PartsJson(lay, parts[1..]))
  }

  function ItemJson(lay: Layout, item: Item): string {
    match item
    case User(parts, reason, meta) => lay.userHead + PartsJson(lay, parts) + lay.userEnd(reason, meta)
    case ToolResult(id, content, images) =>
      // An empty image list is not written at all.
      (lay.toolHead(id) + Escape(content)) +
      (if images == [] then lay.toolEnd else lay.imagesHead + PartsJson(lay, images) + lay.imagesEnd)
    case _ => lay.other(item)
  }

  function ItemsJson(lay: Layout, items: seq<Item>): string {
    if items == [] then []
    else if |items| == 1 then ItemJson(lay, items[0])
    else ItemJson(lay, items[0]) + ("," + ItemsJson(lay, items[1..]))
  }

  function BodyJson(lay: Layout, items: seq<Item>): string {
    "[" + ItemsJson(lay, items) + "]"
  }

  // ---------- Their sizes, for any measure of a URL ----------

  function Commas(n: nat): nat { if n == 0 then 0 else n - 1 }

  function ImageSize(lay: Layout, u: string -> nat, url: string): nat {
    ByteLen(lay.imageHead) + u(url) + ByteLen(lay.partEnd)
  }

  function PartSize(lay: Layout, u: string -> nat, p: Part): nat {
    match p
    case TextPart(text) => ByteLen(lay.textHead) + EscapedBytes(text) + ByteLen(lay.partEnd)
    case Image(url) => ImageSize(lay, u, url)
  }

  function PartsTotal(lay: Layout, u: string -> nat, parts: seq<Part>): nat {
    if parts == [] then 0 else PartSize(lay, u, parts[0]) + PartsTotal(lay, u, parts[1..])
  }

  function PartsSize(lay: Layout, u: string -> nat, parts: seq<Part>): nat {
    PartsTotal(lay, u, parts) + Commas(|parts|)
  }

  function ItemSize(lay: Layout, u: string -> nat, item: Item): nat {
    match item
    case User(parts, reason, meta) =>
      ByteLen(lay.userHead) + PartsSize(lay, u, parts) + ByteLen(lay.userEnd(reason, meta))
    case ToolResult(id, content, images) =>
      ByteLen(lay.toolHead(id)) + EscapedBytes(content) +
      (if images == [] then ByteLen(lay.toolEnd)
       else ByteLen(lay.imagesHead) + PartsSize(lay, u, images) + ByteLen(lay.imagesEnd))
    case _ => ByteLen(lay.other(item))
  }

  function ItemsTotal(lay: Layout, u: string -> nat, items: seq<Item>): nat {
    if items == [] then 0 else ItemSize(lay, u, items[0]) + ItemsTotal(lay, u, items[1..])
  }

  function BodySize(lay: Layout, u: string -> nat, items: seq<Item>): nat {
    2 + ItemsTotal(lay, u, items) + Commas(|items|)
  }

  lemma PartJsonSize(lay: Layout, p: Part)
    ensures ByteLen(PartJson(lay, p)) == PartSize(lay, EscapedBytes, p)
  {
    var head := if p.TextPart? then lay.textHead else lay.imageHead;
    var inner := if p.TextPart? then Escape(p.text) else Escape(p.url);
    ByteLenConcat(head, inner);
    ByteLenConcat(head + inner, lay.partEnd);
  }

  lemma {:induction false} PartsJsonSize(lay: Layout, parts: seq<Part>)
    ensures ByteLen(PartsJson(lay, parts)) == PartsSize(lay, EscapedBytes, parts)
  {
    if parts != [] {
      PartJsonSize(lay, parts[0]);
      PartsJsonSize(lay, parts[1..]);
      AsciiByteLen(",");
      ByteLenConcat(",", PartsJson(lay, parts[1..]));
      ByteLenConcat(PartJson(lay, parts[0]), "," + PartsJson(lay, parts[1..]));
    }
  }

  lemma ThreePieces(a: string, b: string, c: string)
    ensures ByteLen(a + b + c) == ByteLen(a) + ByteLen(b) + ByteLen(c)
  {
    ByteLenConcat(a, b);
    ByteLenConcat(a + b, c);
  }

  lemma ItemJsonSize(lay: Layout, item: Item)
    ensures ByteLen(ItemJson(lay, item)) == ItemSize(lay, EscapedBytes, item)
  {
    if item.User? {
      PartsJsonSize(lay, item.parts);
      ThreePieces(lay.userHead, PartsJson(lay, item.parts), lay.userEnd(item.reason, item.meta));
    } else if item.ToolResult? {
      PartsJsonSize(lay, item.images);
      ThreePieces(lay.imagesHead, PartsJson(lay, item.images), lay.imagesEnd);
      ThreePieces(lay.toolHead(item.callId), Escape(item.content),
        if item.images == [] then lay.toolEnd else lay.imagesHead + PartsJson(lay, item.images) + lay.imagesEnd);
    }
  }

  lemma {:induction false} ItemsJsonSize(lay: Layout, items: seq<Item>)
    ensures ByteLen(ItemsJson(lay, items)) == ItemsTotal(lay, EscapedBytes, items) + Commas(|items|)
  {
    if items != [] {
      ItemJsonSize(lay, items[0]);
      ItemsJsonSize(lay, items[1..]);
      AsciiByteLen(",");
      ByteLenConcat(",", ItemsJson(lay, items[1..]));
      ByteLenConcat(ItemJson(lay, items[0]), "," + ItemsJson(lay, items[1..]));
    }
  }

  lemma BodyJsonSize(lay: Layout, items: seq<Item>)
    ensures ByteLen(BodyJson(lay, items)) == BodySize(lay, EscapedBytes, items)
  {
    ItemsJsonSize(lay, items);
    AsciiByteLen("[");
    AsciiByteLen("]");
    ThreePieces("[", ItemsJson(lay, items), "]");
  }

  // ---------- Blanking the image URLs ----------

  function BlankParts(parts: seq<Part>): seq<Part> {
    if parts == [] then []
    else [if parts[0].Image? then Image([]) else parts[0]] + BlankParts(parts[1..])
  }

  function BlankItem(item: Item): Item {
    match item
    case User(parts, reason, meta) => User(BlankParts(parts), reason, meta)
    case ToolResult(id, content, images) => ToolResult(id, content, BlankParts(images))
    case _ => item
  }

  function Blank(items: seq<Item>): seq<Item> {
    if items == [] then [] else [BlankItem(items[0])] + Blank(items[1..])
  }

  function PartUrls(parts: seq<Part>): seq<string> {
    if parts == [] then [] else (if parts[0].Image? then [parts[0].url] else []) + PartUrls(parts[1..])
  }

  /** The image URLs of an item, oldest first. */
  function ItemUrls(item: Item): seq<string> {
    match item
    case User(parts, _, _) => PartUrls(parts)
    case ToolResult(_, _, images) => PartUrls(images)
    case _ => []
  }

  function Urls(items: seq<Item>): seq<string> {
    if items == [] then [] else ItemUrls(items[0]) + Urls(items[1..])
  }

  function UrlTotal(u: string -> nat, urls: seq<string>): nat {
    if urls == [] then 0 else u(urls[0]) + UrlTotal(u, urls[1..])
  }

  lemma {:induction false} UrlTotalConcat(u: string -> nat, a: seq<string>, b: seq<string>)
    ensures UrlTotal(u, a + b) == UrlTotal(u, a) + UrlTotal(u, b)
  {
    if a == [] {
      assert a + b == b;
    } else {
      assert (a + b)[1..] == a[1..] + b;
      UrlTotalConcat(u, a[1..], b);
    }
  }

  lemma {:induction false} BlankPartsSize(lay: Layout, u: string -> nat, parts: seq<Part>)
    ensures |BlankParts(parts)| == |parts|
    ensures PartsTotal(lay, EscapedBytes, BlankParts(parts)) + UrlTotal(u, PartUrls(parts)) == PartsTotal(lay, u, parts)
  {
    if parts != [] {
      BlankPartsSize(lay, u, parts[1..]);
      assert BlankParts(parts)[1..] == BlankParts(parts[1..]);
      if parts[0].Image? {
        assert PartUrls(parts)[1..] == PartUrls(parts[1..]);
        assert EscapedBytes([]) == 0;
      } else {
        assert PartUrls(parts) == PartUrls(parts[1..]);
      }
    }
  }

  lemma BlankItemSize(lay: Layout, u: string -> nat, item: Item)
    ensures ItemSize(lay, EscapedBytes, BlankItem(item)) + UrlTotal(u, ItemUrls(item)) == ItemSize(lay, u, item)
  {
    match item
    case User(parts, _, _) => BlankPartsSize(lay, u, parts);
    case ToolResult(_, _, images) => BlankPartsSize(lay, u, images);
    case _ =>
  }

  lemma {:induction false} BlankSize(lay: Layout, u: string -> nat, items: seq<Item>)
    ensures |Blank(items)| == |items|
    ensures ItemsTotal(lay, EscapedBytes, Blank(items)) + UrlTotal(u, Urls(items)) == ItemsTotal(lay, u, items)
  {
    if items != [] {
      BlankItemSize(lay, u, items[0]);
      BlankSize(lay, u, items[1..]);
      assert Blank(items)[1..] == Blank(items[1..]);
      UrlTotalConcat(u, ItemUrls(items[0]), Urls(items[1..]));
    }
  }

  lemma PartsStep(u: string -> nat, parts: seq<Part>, i: nat)
    requires i < |parts|
    ensures var rest := parts[i + 1..];
      && BlankParts(parts[i..]) == [if parts[i].Image? then Image([]) else parts[i]] + BlankParts(rest)
      && UrlTotal(u, PartUrls(parts[i..]))
         == (if parts[i].Image? then u(parts[i].url) else 0) + UrlTotal(u, PartUrls(rest))
  {
    assert parts[i..][1..] == parts[i + 1..];
    if parts[i].Image? {
      assert PartUrls(parts[i..])[1..] == PartUrls(parts[i + 1..]);
    } else {
      assert PartUrls(parts[i..]) == PartUrls(parts[i + 1..]);
    }
  }

  method BlankImageUrls(u: string -> nat, parts: seq<Part>, total: nat) returns (blanked: seq<Part>, total': nat)
    ensures blanked == BlankParts(parts) && total' == total + UrlTotal(u, PartUrls(parts))
  {
    blanked, total' := [], total;
    ghost var rest, left := BlankParts(parts), UrlTotal(u, PartUrls(parts));
    assert parts[0..] == parts;
    for i := 0 to |parts|
      invariant rest == BlankParts(parts[i..]) && blanked + rest == BlankParts(parts)
      invariant left == UrlTotal(u, PartUrls(parts[i..])) && total' + left == total + UrlTotal(u, PartUrls(parts))
    {
      PartsStep(u, parts, i);
      rest, left := BlankParts(parts[i + 1..]), UrlTotal(u, PartUrls(parts[i + 1..]));
      Assoc(blanked, [if parts[i].Image? then Image([]) else parts[i]], rest);
      if parts[i].Image? {
        blanked, total' := blanked + [Image([])], total' + u(parts[i].url);
      } else {
        blanked := blanked + [parts[i]];
      }
    }
  }

  method BlankImageUrlsOf(u: string -> nat, item: Item, total: nat) returns (blanked: Item, total': nat)
    ensures blanked == BlankItem(item) && total' == total + UrlTotal(u, ItemUrls(item))
  {
    match item {
      case User(parts, reason, meta) =>
        var b;
        b, total' := BlankImageUrls(u, parts, total);
        blanked := User(b, reason, meta);
      case ToolResult(id, content, images) =>
        var b;
        b, total' := BlankImageUrls(u, images, total);
        blanked := ToolResult(id, content, b);
      case _ => blanked, total' := item, total;
    }
  }

  lemma ItemsStep(u: string -> nat, items: seq<Item>, i: nat)
    requires i < |items|
    ensures Blank(items[i..]) == [BlankItem(items[i])] + Blank(items[i + 1..])
    ensures UrlTotal(u, Urls(items[i..])) == UrlTotal(u, ItemUrls(items[i])) + UrlTotal(u, Urls(items[i + 1..]))
  {
    assert items[i..][1..] == items[i + 1..];
    UrlTotalConcat(u, ItemUrls(items[i]), Urls(items[i + 1..]));
  }

  method BlankAll(u: string -> nat, conversation: seq<Item>) returns (blanked: seq<Item>, urlBytes: nat)
    ensures blanked == Blank(conversation) && urlBytes == UrlTotal(u, Urls(conversation))
  {
    blanked, urlBytes := [], 0;
    ghost var rest, left := Blank(conversation), UrlTotal(u, Urls(conversation));
    assert conversation[0..] == conversation;
    for i := 0 to |conversation|
      invariant rest == Blank(conversation[i..]) && blanked + rest == Blank(conversation)
      invariant left == UrlTotal(u, Urls(conversation[i..])) && urlBytes + left == UrlTotal(u, Urls(conversation))
    {
      ItemsStep(u, conversation, i);
      rest, left := Blank(conversation[i + 1..]), UrlTotal(u, Urls(conversation[i + 1..]));
      Assoc(blanked, [BlankItem(conversation[i])], rest);
      var item;
      item, urlBytes := BlankImageUrlsOf(u, conversation[i], urlBytes);
      blanked := blanked + [item];
    }
  }

  /** Blanking every URL and adding back its measure loses nothing. */
  lemma BlankAndAddBack(lay: Layout, u: string -> nat, conversation: seq<Item>)
    ensures ByteLen(BodyJson(lay, Blank(conversation))) + UrlTotal(u, Urls(conversation))
      == BodySize(lay, u, conversation)
  {
    BodyJsonSize(lay, Blank(conversation));
    BlankSize(lay, u, conversation);
  }

  method ConversationBodyBytes(lay: Layout, conversation: seq<Item>) returns (bytes: nat)
    ensures bytes == BodySize(lay, EncodedUrlBytes, conversation)
  {
    var blanked, urlBytes := BlankAll(EncodedUrlBytes, conversation);
    bytes := ByteLen(BodyJson(lay, blanked)) + urlBytes;
    BlankAndAddBack(lay, EncodedUrlBytes, conversation);
  }

  ghost predicate AllTailsPlain(urls: seq<string>) {
    forall i :: 0 <= i < |urls| ==> HasPlainTail(urls[i])
  }

  lemma {:induction false} UrlTotalsCompare(urls: seq<string>)
    ensures UrlTotal(EncodedUrlBytes, urls) <= UrlTotal(EscapedBytes, urls)
    ensures UrlTotal(EncodedUrlBytes, urls) == UrlTotal(EscapedBytes, urls) <==> AllTailsPlain(urls)
  {
    if urls != [] {
      UrlMeasure(urls[0]);
      UrlTotalsCompare(urls[1..]);
      assert AllTailsPlain(urls) <==> HasPlainTail(urls[0]) && AllTailsPlain(urls[1..]) by {
        assert forall i :: 1 <= i < |urls| ==> urls[i] == urls[1..][i - 1];
      }
    }
  }

  /** The fast measure never exceeds the serialized length, and equals it exactly when no base64
      data-URL tail needs escaping. */
  lemma FastMeasureIsExact(lay: Layout, conversation: seq<Item>)
    ensures BodySize(lay, EncodedUrlBytes, conversation) <= ByteLen(BodyJson(lay, conversation))
    ensures BodySize(lay, EncodedUrlBytes, conversation) == ByteLen(BodyJson(lay, conversation)) <==>
            AllTailsPlain(Urls(conversation))
  {
    BodyJsonSize(lay, conversation);
    BlankSize(lay, EncodedUrlBytes, conversation);
    BlankSize(lay, EscapedBytes, conversation);
    UrlTotalsCompare(Urls(conversation));
  }
}
