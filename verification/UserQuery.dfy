/** Extracting what a person typed from a user message, and wrapping it again. */
module UserQuery {
  import opened Text

  /** The tags around a query, and the names of the metadata blocks the runtime injects. */
  datatype Markup = Markup(open: string, close: string, blocks: seq<string>)

  const QUERY_MARKUP := Markup("<user_query>", "</user_query>", [
    "user_info", "project_layout", "git_status", "fork-context", "system-reminder", "agent-memory",
    "system_reminder", "background_context", "command-name", "command-message", "command-args", "rules"])

  const AUTO_CONTINUE_PROMPT := "Continue the conversation from where it left off without asking the user any further questions. Resume directly - do not acknowledge the summary, do not recap what was happening, do not preface with \"I'll continue\" or similar.\nPick up the last task as if the break never happened."

  function OpenTag(name: string): string { "<" + name + ">" }
  function CloseTag(name: string): string { "</" + name + ">" }

  // ---------- Metadata blocks ----------

  /** One round of the stripping loop. */
  function StripOnce(s: string, open: string, close: string): (r: Option<string>)
    requires |close| > 0
    ensures r.Some? ==> |r.value| < |s|
  {
    match Find(s, open)
    case None => None
    case Some(start) =>
      match FindFrom(s, close, start)
      case Some(end) => Some(s[..start] + s[end + |close|..])
      case None => None
  }

  /** Remove complete `open ... close` blocks, first one first; an unclosed tag stays. */
  function StripTag(s: string, open: string, close: string): string
    requires |close| > 0
    decreases |s|
  {
    var r := StripOnce(s, open, close);
    if r.None? then s else StripTag(r.value, open, close)
  }

  function StripTags(s: string, names: seq<string>): string
    decreases |names|
  {
    if names == [] then s
    else StripTags(StripTag(s, OpenTag(names[0]), CloseTag(names[0])), names[1..])
  }

  method StripTagLoop(s: string, open: string, close: string) returns (result: string)
    requires |close| > 0
    ensures result == StripTag(s, open, close)
  {
    result := s;
    while true
      invariant StripTag(result, open, close) == StripTag(s, open, close)
      decreases |result|
    {
      var start := Find(result, open);
      if start.None? {
        break;
      }
      var end := FindFrom(result, close, start.value);
      if end.None? {
        break;
      }
      result := result[..start.value] + result[end.value + |close|..];
    }
  }

  method StripSystemTags(text: string, names: seq<string>) returns (result: string)
    ensures result == Trim(StripTags(text, names))
  {
    result := text;
    for i := 0 to |names|
      invariant StripTags(result, names[i..]) == StripTags(text, names)
    {
      assert names[i..][1..] == names[i + 1..];
      result := StripTagLoop(result, OpenTag(names[i]), CloseTag(names[i]));
    }
    result := Trim(result);
  }

  /** What lies between the query tags of `s`, or `s` itself. */
  function BetweenTags(s: string, open: string, close: string): string {
    match Find(s, open)
    case None => s
    case Some(start) =>
      match FindFrom(s, close, start + |open|)
      case None => s
      case Some(end) => Trim(s[start + |open|..end])
  }

  function Extract(text: string, m: Markup): string {
    BetweenTags(Trim(StripTags(text, m.blocks)), m.open, m.close)
  }

  function Wrap(text: string, m: Markup): string {
    (m.open + "\n") + text + ("\n" + m.close)
  }

  function ExtractUserQuery(text: string): string { Extract(text, QUERY_MARKUP) }
  function WrapUserQuery(text: string): string { Wrap(text, QUERY_MARKUP) }

  predicate IsSyntheticQuery(text: string) {
    text == [] || text == "__auto_continue__" || text == AUTO_CONTINUE_PROMPT
  }

  // ---------- Stripping shortens, or changes nothing ----------

  ghost predicate HasBlockOf(s: string, open: string, close: string) {
    exists i: nat, j: nat :: i <= j && OccursAt(s, open, i) && OccursAt(s, close, j)
  }

  /** Some metadata block of this name is complete in `s`. */
  ghost predicate HasBlock(s: string, name: string) {
    HasBlockOf(s, OpenTag(name), CloseTag(name))
  }

  ghost predicate HasNoBlock(s: string, names: seq<string>) {
    forall i :: 0 <= i < |names| ==> !HasBlock(s, names[i])
  }

  lemma {:induction false} StripTagFixed(s: string, open: string, close: string)
    requires |close| > 0
    ensures |StripTag(s, open, close)| <= |s|
    ensures HasBlockOf(s, open, close) ==> |StripTag(s, open, close)| < |s|
    ensures !HasBlockOf(s, open, close) ==> StripTag(s, open, close) == s
    decreases |s|
  {
    var r := StripOnce(s, open, close);
    if r.Some? {
      StripTagFixed(r.value, open, close);
    }
  }

  lemma {:induction false} StripTagsFixed(s: string, names: seq<string>)
    ensures |StripTags(s, names)| <= |s|
    ensures HasNoBlock(s, names) ==> StripTags(s, names) == s
    ensures |StripTags(s, names)| == |s| ==> HasNoBlock(s, names)
    decreases |names|
  {
    if names != [] {
      var s' := StripTag(s, OpenTag(names[0]), CloseTag(names[0]));
      StripTagFixed(s, OpenTag(names[0]), CloseTag(names[0]));
      StripTagsFixed(s', names[1..]);
      if HasNoBlock(s, names) {
        assert !HasBlock(s, names[0]);
        assert HasNoBlock(s, names[1..]);
      }
      if |StripTags(s, names)| == |s| {
        assert !HasBlock(s, names[0]);
        forall i | 0 <= i < |names| ensures !HasBlock(s, names[i]) {
          if i > 0 {
            assert names[i] == names[1..][i - 1];
          }
        }
      }
    }
  }

  /** A complete block vanishes, and what it stood between closes up. */
  lemma BlockIsRemoved(pre: string, open: string, x: string, close: string, post: string)
    requires AreDistinct(open, close) && !Contains(pre, open) && !Contains(x, close)
    ensures StripTag(pre + open + (x + close + post), open, close) == StripTag(pre + post, open, close)
  {
    var s := pre + open + (x + close + post);
    RemovesOne(s, pre, open, x, close, post);
    StripsOn(s, pre + post, open, close);
  }

  lemma RemovesOne(s: string, pre: string, open: string, x: string, close: string, post: string)
    requires AreDistinct(open, close) && !Contains(pre, open) && !Contains(x, close)
    requires s == pre + open + (x + close + post)
    ensures StripOnce(s, open, close) == Some(pre + post)
  {
    FindFirstTag(pre, open, x + close + post);
    CloseFound(s, pre, open, x, close, post);
  }

  lemma StripsOn(s: string, r: string, open: string, close: string)
    requires |close| > 0 && StripOnce(s, open, close) == Some(r)
    ensures StripTag(s, open, close) == StripTag(r, open, close)
  {
  }

  // ---------- What extraction finds ----------

  /** No opening query tag is followed by a closing one. */
  ghost predicate HasNoQuery(s: string, m: Markup) {
    forall i: nat, j: nat :: OccursAt(s, m.open, i) && OccursAt(s, m.close, j) ==> j < i + |m.open|
  }

  /** A text without a complete query is taken whole, but for its metadata blocks. */
  lemma ExtractsAll(text: string, m: Markup)
    requires HasNoQuery(Trim(StripTags(text, m.blocks)), m)
    ensures Extract(text, m) == Trim(StripTags(text, m.blocks))
  {
  }

  lemma CloseBehind(s: string, pre: string, open: string, x: string, close: string, post: string)
    requires AreDistinct(open, close) && !Contains(x, close) && s == pre + open + (x + close + post)
    ensures FindFrom(s, close, |pre| + |open|) == Some(|pre| + |open| + |x|)
  {
    CloseFound(s, pre, open, x, close, post);
    assert IsFirst(s, close, |pre| + |open|, |pre| + |open| + |x|);
  }

  lemma BetweenAt(s: string, open: string, close: string, start: nat, x: string)
    requires Find(s, open) == Some(start) && FindFrom(s, close, start + |open|) == Some(start + |open| + |x|)
    requires s[start + |open|..start + |open| + |x|] == x
    ensures BetweenTags(s, open, close) == Trim(x)
  {
  }

  lemma BetweenIs(s: string, pre: string, open: string, x: string, close: string, post: string)
    requires AreDistinct(open, close) && !Contains(pre, open) && !Contains(x, close)
    requires s == pre + open + (x + close + post)
    ensures BetweenTags(s, open, close) == Trim(x)
  {
    FindFirstTag(pre, open, x + close + post);
    CloseBehind(s, pre, open, x, close, post);
    assert s[|pre| + |open|..|pre| + |open| + |x|] == x;
    BetweenAt(s, open, close, |pre|, x);
  }

  /** Otherwise the first query is taken, up to its first closing tag, wherever it stands. */
  lemma ExtractsFirstQuery(text: string, m: Markup, pre: string, x: string, post: string)
    requires AreDistinct(m.open, m.close) && !Contains(pre, m.open) && !Contains(x, m.close)
    requires Trim(StripTags(text, m.blocks)) == pre + m.open + (x + m.close + post)
    ensures Extract(text, m) == Trim(x)
  {
    BetweenIs(Trim(StripTags(text, m.blocks)), pre, m.open, x, m.close, post);
  }

  // ---------- Where a tag occurs in a wrapped text ----------

  /** A text without line breaks occurs in a wrapped text only inside one of its three pieces. */
  lemma OccursAcross(pre: string, q: string, post: string, t: string, i: nat)
    requires |t| > 0 && '\n' !in t
    requires |pre| > 0 && pre[|pre| - 1] == '\n' && |post| > 0 && post[0] == '\n'
    ensures var m := |pre| + |q|;
      OccursAt(pre + q + post, t, i) <==>
        || OccursAt(pre, t, i)
        || (i >= |pre| && OccursAt(q, t, i - |pre|))
        || (i >= m && OccursAt(post, t, i - m))
  {
    var w := pre + q + post;
    var m := |pre| + |q|;
    if OccursAt(w, t, i) {
      forall k | i <= k < i + |t| ensures w[k] != '\n' {
        assert w[k] == w[i..i + |t|][k - i] == t[k - i];
      }
      assert w[|pre| - 1] == '\n' && w[m] == '\n';
      if i < |pre| {
        assert pre[i..i + |t|] == w[i..i + |t|];
      } else if i < m {
        assert q[i - |pre|..i - |pre| + |t|] == w[i..i + |t|];
      } else {
        assert post[i - m..i - m + |t|] == w[i..i + |t|];
      }
    }
    if OccursAt(pre, t, i) {
      assert w[i..i + |t|] == pre[i..i + |t|];
    }
    if i >= |pre| && OccursAt(q, t, i - |pre|) {
      assert w[i..i + |t|] == q[i - |pre|..i - |pre| + |t|];
    }
    if i >= m && OccursAt(post, t, i - m) {
      assert w[i..i + |t|] == post[i - m..i - m + |t|];
    }
  }

  /** A tag occurs in a line that is another tag only at its start, as a prefix. */
  lemma OccursInTagLine(tag: string, t: string, i: nat)
    requires IsTag(tag) && IsTag(t)
    ensures OccursAt(tag + "\n", t, i) ==> i == 0 && t <= tag
    ensures OccursAt("\n" + tag, t, i) ==> i == 1 && t <= tag
  {
    var a, b := tag + "\n", "\n" + tag;
    if OccursAt(a, t, i) {
      assert a[i] == a[i..i + |t|][0] == '<';
      assert i == 0;
      assert forall k :: 0 <= k < |t| ==> a[k] == a[0..|t|][k] == t[k];
      assert a[|tag|] == '\n';
      assert |t| <= |tag|;
      assert t == tag[..|t|];
    }
    if OccursAt(b, t, i) {
      assert b[i] == b[i..i + |t|][0] == '<';
      assert i == 1;
      assert t == b[1..1 + |t|] == tag[..|t|];
    }
  }

  /** `t` sits in neither piece of a wrapper that ends and starts with a line break. */
  ghost predicate Outside(pre: string, post: string, t: string) {
    && |t| > 0 && '\n' !in t
    && |pre| > 0 && pre[|pre| - 1] == '\n' && |post| > 0 && post[0] == '\n'
    && !Contains(pre, t) && !Contains(post, t)
  }

  lemma TagIsOutside(open: string, close: string, t: string)
    requires IsTag(open) && IsTag(close) && IsTag(t) && !(t <= open) && !(t <= close)
    ensures Outside(open + "\n", "\n" + close, t)
  {
    forall i: nat ensures !OccursAt(open + "\n", t, i) && !OccursAt("\n" + close, t, i) {
      OccursInTagLine(open, t, i);
      OccursInTagLine(close, t, i);
    }
  }

  /** `w` holds `t` exactly where `q` does, `d` characters further on. */
  ghost predicate Shifted(w: string, q: string, d: nat, t: string) {
    forall i: nat :: OccursAt(w, t, i) <==> i >= d && OccursAt(q, t, i - d)
  }

  lemma WrappedIsShifted(pre: string, q: string, post: string, t: string)
    requires Outside(pre, post, t)
    ensures Shifted(pre + q + post, q, |pre|, t)
  {
    var w := pre + q + post;
    forall i: nat ensures OccursAt(w, t, i) <==> i >= |pre| && OccursAt(q, t, i - |pre|) {
      OccursAcross(pre, q, post, t, i);
    }
  }

  function MoveBy(f: Option<nat>, d: nat): Option<nat> {
    match f case None => None case Some(k) => Some(k + d)
  }

  lemma FindFromShifted(w: string, q: string, d: nat, t: string, from: nat)
    requires Shifted(w, q, d, t)
    ensures FindFrom(w, t, from + d) == MoveBy(FindFrom(q, t, from), d)
  {
    var f := FindFrom(q, t, from);
    if f.Some? {
      assert OccursAt(w, t, f.value + d);
    }
  }

  lemma FindShifted(w: string, q: string, d: nat, t: string)
    requires Shifted(w, q, d, t)
    ensures Find(w, t) == MoveBy(Find(q, t), d)
  {
    var f := Find(q, t);
    if f.Some? {
      assert OccursAt(w, t, f.value + d);
    }
  }

  lemma FindWrapped(pre: string, q: string, post: string, t: string, from: nat)
    requires Outside(pre, post, t)
    ensures FindFrom(pre + q + post, t, from + |pre|) == MoveBy(FindFrom(q, t, from), |pre|)
    ensures Find(pre + q + post, t) == MoveBy(Find(q, t), |pre|)
  {
    WrappedIsShifted(pre, q, post, t);
    FindFromShifted(pre + q + post, q, |pre|, t, from);
    FindShifted(pre + q + post, q, |pre|, t);
  }

  // ---------- Stripping metadata and wrapping commute ----------

  lemma CutBetween(pre: string, q: string, post: string, i: nat, j: nat)
    requires i <= j <= |q|
    ensures var w := pre + q + post;
      w[..i + |pre|] + w[j + |pre|..] == pre + (q[..i] + q[j..]) + post
  {
  }

  lemma StripOnceBetween(pre: string, q: string, post: string, open: string, close: string)
    requires Outside(pre, post, open) && Outside(pre, post, close)
    ensures StripOnce(pre + q + post, open, close) ==
      match StripOnce(q, open, close) case None => None case Some(r) => Some(pre + r + post)
  {
    FindWrapped(pre, q, post, open, 0);
    var start := Find(q, open);
    if start.Some? {
      FindWrapped(pre, q, post, close, start.value);
      var end := FindFrom(q, close, start.value);
      if end.Some? {
        CutBetween(pre, q, post, start.value, end.value + |close|);
      }
    }
  }

  lemma {:induction false} StripTagBetween(pre: string, q: string, post: string, open: string, close: string)
    requires Outside(pre, post, open) && Outside(pre, post, close)
    ensures StripTag(pre + q + post, open, close) == pre + StripTag(q, open, close) + post
    decreases |q|
  {
    StripOnceBetween(pre, q, post, open, close);
    var r := StripOnce(q, open, close);
    if r.Some? {
      StripTagBetween(pre, r.value, post, open, close);
    }
  }

  /** The tags of this block cannot be mistaken for pieces of the wrapper. */
  ghost predicate IsForeign(name: string, m: Markup) {
    && Outside(m.open + "\n", "\n" + m.close, OpenTag(name))
    && Outside(m.open + "\n", "\n" + m.close, CloseTag(name))
  }

  ghost predicate IsSound(m: Markup) {
    && IsTag(m.open) && IsTag(m.close) && !(m.close <= m.open) && !IsSpace(m.close[|m.close| - 1])
    && forall i :: 0 <= i < |m.blocks| ==> IsForeign(m.blocks[i], m)
  }

  lemma {:induction false} StripTagsWrapped(q: string, m: Markup, names: seq<string>)
    requires forall i :: 0 <= i < |names| ==> IsForeign(names[i], m)
    ensures StripTags(Wrap(q, m), names) == Wrap(StripTags(q, names), m)
    decreases |names|
  {
    if names != [] {
      StripTagBetween(m.open + "\n", q, "\n" + m.close, OpenTag(names[0]), CloseTag(names[0]));
      StripTagsWrapped(StripTag(q, OpenTag(names[0]), CloseTag(names[0])), m, names[1..]);
    }
  }

  // ---------- What extraction finds in a wrapped text ----------

  function UpTo(s: string, t: string): string {
    match Find(s, t) case Some(k) => s[..k] case None => s
  }

  /** The closing tag occurs where it does in the text, and once more at the end. */
  lemma CloseOccurs(q: string, m: Markup, i: nat)
    requires IsSound(m)
    ensures var d := |m.open| + 1;
      OccursAt(Wrap(q, m), m.close, i) <==> (i >= d && OccursAt(q, m.close, i - d)) || i == d + |q| + 1
  {
    var pre, post := m.open + "\n", "\n" + m.close;
    OccursAcross(pre, q, post, m.close, i);
    OccursInTagLine(m.open, m.close, i);
    if i >= |pre| + |q| {
      OccursInTagLine(m.close, m.close, i - |pre| - |q|);
    }
    assert post[1..1 + |m.close|] == m.close;
    assert OccursAt(post, m.close, 1);
  }

  lemma FindCloseWrapped(q: string, m: Markup)
    requires IsSound(m)
    ensures FindFrom(Wrap(q, m), m.close, |m.open|) ==
      Some(match Find(q, m.close) case Some(k) => |m.open| + 1 + k case None => |m.open| + 1 + |q| + 1)
  {
    forall i: nat ensures OccursAt(Wrap(q, m), m.close, i) <==>
        (i >= |m.open| + 1 && OccursAt(q, m.close, i - (|m.open| + 1))) || i == |m.open| + 1 + |q| + 1 {
      CloseOccurs(q, m, i);
    }
    FirstOfClose(Wrap(q, m), q, m.close, |m.open|);
  }

  lemma FirstOfClose(w: string, q: string, close: string, n: nat)
    requires forall i: nat ::
      OccursAt(w, close, i) <==> (i >= n + 1 && OccursAt(q, close, i - (n + 1))) || i == n + 1 + |q| + 1
    requires |close| > 0
    ensures FindFrom(w, close, n) == Some(match Find(q, close) case Some(k) => n + 1 + k case None => n + 1 + |q| + 1)
  {
    var k := Find(q, close);
    if k.Some? {
      assert OccursAt(w, close, n + 1 + k.value);
    } else {
      assert OccursAt(w, close, n + 1 + |q| + 1);
    }
  }

  lemma FindOpenWrapped(q: string, m: Markup)
    requires IsSound(m)
    ensures Find(Wrap(q, m), m.open) == Some(0)
  {
    assert Wrap(q, m)[0..|m.open|] == m.open;
    assert OccursAt(Wrap(q, m), m.open, 0);
  }

  lemma CutWrapped(q: string, m: Markup, k: nat)
    requires k <= |q|
    ensures |Wrap(q, m)| == |m.open| + |q| + |m.close| + 2
    ensures Trim(Wrap(q, m)[|m.open|..|m.open| + 1 + k]) == Trim(q[..k])
  {
    assert Wrap(q, m)[|m.open|..|m.open| + 1 + k] == "\n" + q[..k] + "";
    TrimPadded("\n", q[..k], "");
  }

  lemma CutWhole(q: string, m: Markup)
    ensures |Wrap(q, m)| == |m.open| + |q| + |m.close| + 2
    ensures Trim(Wrap(q, m)[|m.open|..|m.open| + 1 + |q| + 1]) == Trim(q)
  {
    assert Wrap(q, m)[|m.open|..|m.open| + 1 + |q| + 1] == "\n" + q + "\n";
    TrimPadded("\n", q, "\n");
  }

  lemma BetweenFound(w: string, open: string, close: string, end: nat)
    requires Find(w, open) == Some(0) && FindFrom(w, close, |open|) == Some(end)
    ensures |open| <= end <= |w| && BetweenTags(w, open, close) == Trim(w[|open|..end])
  {
  }

  lemma ContentBounds(q: string, m: Markup) returns (u: string, end: nat)
    requires IsSound(m)
    ensures u == UpTo(q, m.close) && |u| <= |q| && u == q[..|u|]
    ensures end == |m.open| + 1 + |u| || (u == q && end == |m.open| + 1 + |q| + 1)
    ensures |m.open| <= end <= |Wrap(q, m)|
    ensures BetweenTags(Wrap(q, m), m.open, m.close) == Trim(Wrap(q, m)[|m.open|..end])
  {
    FindOpenWrapped(q, m);
    FindCloseWrapped(q, m);
    u, end := UpTo(q, m.close), FindFrom(Wrap(q, m), m.close, |m.open|).value;
    BetweenFound(Wrap(q, m), m.open, m.close, end);
  }

  lemma TrimCut(q: string, m: Markup, u: string, end: nat)
    requires |u| <= |q| && u == q[..|u|]
    requires end == |m.open| + 1 + |u| || (u == q && end == |m.open| + 1 + |q| + 1)
    ensures |m.open| <= end <= |Wrap(q, m)| && Trim(Wrap(q, m)[|m.open|..end]) == Trim(u)
  {
    if end == |m.open| + 1 + |u| {
      CutWrapped(q, m, |u|);
    } else {
      CutWhole(q, m);
    }
  }

  lemma ContentOfWrapped(q: string, m: Markup)
    requires IsSound(m)
    ensures BetweenTags(Wrap(q, m), m.open, m.close) == Trim(UpTo(q, m.close))
  {
    var u, end := ContentBounds(q, m);
    TrimCut(q, m, u, end);
  }

  lemma WrappedIsTrimmed(q: string, m: Markup)
    requires IsSound(m)
    ensures Trim(Wrap(q, m)) == Wrap(q, m)
  {
    var w := Wrap(q, m);
    assert w[0] == '<' && w[|w| - 1] == m.close[|m.close| - 1];
    TrimIsTrimmed(w);
  }

  /** Extracting a wrapped query yields its text up to the first closing tag, metadata removed. */
  lemma ExtractOfWrap(q: string, m: Markup)
    requires IsSound(m)
    ensures Extract(Wrap(q, m), m) == Trim(UpTo(StripTags(q, m.blocks), m.close))
  {
    StripTagsWrapped(q, m, m.blocks);
    WrappedIsTrimmed(StripTags(q, m.blocks), m);
    ContentOfWrapped(StripTags(q, m.blocks), m);
  }

  /** The exact condition under which a query survives wrapping and extraction: it is trimmed and
      holds neither a closing query tag nor a complete metadata block. */
  ghost predicate SurvivesIn(q: string, m: Markup) {
    IsTrimmed(q) && !Contains(q, m.close) && HasNoBlock(q, m.blocks)
  }

  lemma RoundTripIn(q: string, m: Markup)
    requires IsSound(m)
    ensures Extract(Wrap(q, m), m) == q <==> SurvivesIn(q, m)
  {
    var s := StripTags(q, m.blocks);
    var u := UpTo(s, m.close);
    ExtractOfWrap(q, m);
    StripTagsFixed(q, m.blocks);
    TrimIsTrimmed(u);
    if Extract(Wrap(q, m), m) == q {
      assert |q| <= |u| <= |s| <= |q|;
      assert Find(s, m.close).None?;
    }
  }

  /** Wrapping and extracting shortens every query that does not survive. */
  lemma ExtractShortens(q: string, m: Markup)
    requires IsSound(m)
    ensures |Extract(Wrap(q, m), m)| <= |q|
    ensures |Extract(Wrap(q, m), m)| == |q| <==> SurvivesIn(q, m)
  {
    var s := StripTags(q, m.blocks);
    var u := UpTo(s, m.close);
    ExtractOfWrap(q, m);
    RoundTripIn(q, m);
    StripTagsFixed(q, m.blocks);
    TrimIsTrimmed(u);
    if |Extract(Wrap(q, m), m)| == |q| {
      assert |u| == |s| == |q|;
      assert u == s;
    }
  }

  // ---------- The markup of this program ----------

  ghost predicate IsSafeName(name: string) {
    && |name| > 0 && name[0] != '/' && name != "user_query"
    && forall k :: 0 <= k < |name| ==> name[k] != '<' && name[k] != '>' && name[k] != '\n'
  }

  lemma OpenTagIsForeign(name: string, open: string, close: string)
    requires IsSafeName(name) && open == "<user_query>" && close == "</user_query>"
    ensures IsTag(OpenTag(name)) && !(OpenTag(name) <= open) && !(OpenTag(name) <= close)
  {
    var o := OpenTag(name);
    assert o[1] == name[0] && o[|o| - 1] == '>' && close[1] == '/';
    assert forall k :: 0 <= k < 11 ==> open[k] != '>';
    assert o[1..|o| - 1] == name && open[1..11] == "user_query";
  }

  lemma CloseTagIsForeign(name: string, open: string, close: string)
    requires IsSafeName(name) && open == "<user_query>" && close == "</user_query>"
    ensures IsTag(CloseTag(name)) && !(CloseTag(name) <= open) && !(CloseTag(name) <= close)
  {
    var c := CloseTag(name);
    assert c[1] == '/' && c[|c| - 1] == '>' && open[1] == 'u';
    assert forall k :: 0 <= k < 12 ==> close[k] != '>';
    assert c[2..|c| - 1] == name && close[2..12] == "user_query";
  }

  lemma SafeNameIsForeign(name: string, m: Markup)
    requires IsSafeName(name) && m.open == "<user_query>" && m.close == "</user_query>"
    ensures IsForeign(name, m)
  {
    OpenTagIsForeign(name, m.open, m.close);
    CloseTagIsForeign(name, m.open, m.close);
    TagIsOutside(m.open, m.close, OpenTag(name));
    TagIsOutside(m.open, m.close, CloseTag(name));
  }

  lemma SomeSystemTagsAreSafe()
    ensures IsSafeName("user_info") && IsSafeName("project_layout") && IsSafeName("git_status")
    ensures IsSafeName("fork-context") && IsSafeName("system-reminder") && IsSafeName("agent-memory")
  {
  }

  lemma OtherSystemTagsAreSafe()
    ensures IsSafeName("system_reminder") && IsSafeName("background_context") && IsSafeName("command-name")
    ensures IsSafeName("command-message") && IsSafeName("command-args") && IsSafeName("rules")
  {
  }

  lemma QueryMarkupIsSound()
    ensures IsSound(QUERY_MARKUP)
  {
    SomeSystemTagsAreSafe();
    OtherSystemTagsAreSafe();
    forall i | 0 <= i < |QUERY_MARKUP.blocks| ensures IsForeign(QUERY_MARKUP.blocks[i], QUERY_MARKUP) {
      SafeNameIsForeign(QUERY_MARKUP.blocks[i], QUERY_MARKUP);
    }
  }

  ghost predicate Survives(q: string) {
    SurvivesIn(q, QUERY_MARKUP)
  }

  /** A query comes back unchanged from wrap-then-extract exactly when it survives. */
  lemma WrapRoundTrip(q: string)
    ensures ExtractUserQuery(WrapUserQuery(q)) == q <==> Survives(q)
  {
    QueryMarkupIsSound();
    RoundTripIn(q, QUERY_MARKUP);
  }

  /** ... and is shortened by it otherwise. */
  lemma WrapShortens(q: string)
    ensures |ExtractUserQuery(WrapUserQuery(q))| <= |q|
    ensures |ExtractUserQuery(WrapUserQuery(q))| == |q| <==> Survives(q)
  {
    QueryMarkupIsSound();
    ExtractShortens(q, QUERY_MARKUP);
  }
}
