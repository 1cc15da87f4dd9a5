/** Cleaning the compaction model's raw output (`format_compact_summary`). */
module CompactSummary {
  import opened Text

  /** The tags the compaction model is asked to use, and the heading a summary gets in their place. */
  datatype Tags = Tags(
    analysisOpen: string, analysisClose: string, summaryOpen: string, summaryClose: string, heading: string)

  const TAGS := Tags("<analysis>", "</analysis>", "<summary>", "</summary>", "Summary:\n")

  /** In the order in which they are defused. */
  const CONTROL_TOKENS: seq<string> :=
    ["</summary>", "<summary>", "</analysis>", "<analysis>", "</summary_request>", "<summary_request>"]

  const SENTINEL: char := '\U{200B}'

  // ---------- Defusing echoed control tokens ----------

  predicate IsDefusable(token: string) { IsTag(token) && SENTINEL !in token }

  ghost predicate AllDefusable(tokens: seq<string>) {
    forall i :: 0 <= i < |tokens| ==> IsDefusable(tokens[i])
  }

  /** Insert the sentinel after the `<` of every occurrence. */
  function Defuse(text: string, token: string): string
    requires |token| > 0
  {
    Replace(text, token, "<" + [SENTINEL] + token[1..])
  }

  function DefuseAll(text: string, tokens: seq<string>): string
    requires forall i :: 0 <= i < |tokens| ==> |tokens[i]| > 0
    decreases |tokens|
  {
    if tokens == [] then text else DefuseAll(Defuse(text, tokens[0]), tokens[1..])
  }

  function Neutralize(text: string): string {
    DefuseAll(text, CONTROL_TOKENS)
  }

  lemma SummaryTokensAreTags()
    ensures IsDefusable("</summary>") && IsDefusable("<summary>")
  {
  }

  lemma AnalysisTokensAreTags()
    ensures IsDefusable("</analysis>") && IsDefusable("<analysis>")
  {
  }

  lemma RequestTokensAreTags()
    ensures IsDefusable("</summary_request>") && IsDefusable("<summary_request>")
  {
  }

  lemma ControlTokensAreTags()
    ensures AllDefusable(CONTROL_TOKENS)
  {
    SummaryTokensAreTags();
    AnalysisTokensAreTags();
    RequestTokensAreTags();
    forall i | 0 <= i < |CONTROL_TOKENS| ensures IsDefusable(CONTROL_TOKENS[i]) {
    }
  }

  /** Defusing removes every listed token and creates no other tag. */
  lemma {:induction false} DefuseAllRemoves(text: string, tokens: seq<string>, t: string)
    requires AllDefusable(tokens) && IsTag(t) && SENTINEL !in t
    requires t in tokens || !Contains(text, t)
    ensures !Contains(DefuseAll(text, tokens), t)
    decreases |tokens|
  {
    if tokens != [] {
      var token := tokens[0];
      var rep := "<" + [SENTINEL] + token[1..];
      if t == token || !Contains(text, t) {
        assert NeverStartsIn(rep, t) by {
          assert forall k :: 2 <= k < |rep| ==> rep[k] == token[k - 1];
        }
        ReplaceCreatesNone(text, token, rep, t);
      }
      DefuseAllRemoves(Defuse(text, token), tokens[1..], t);
    }
  }

  lemma {:induction false} DefuseAllAbsent(text: string, tokens: seq<string>)
    requires AllDefusable(tokens)
    requires forall i :: 0 <= i < |tokens| ==> !Contains(text, tokens[i])
    ensures DefuseAll(text, tokens) == text
  {
    if tokens != [] {
      ReplaceAbsent(text, tokens[0], "<" + [SENTINEL] + tokens[0][1..]);
      DefuseAllAbsent(text, tokens[1..]);
    }
  }

  /** The text without its zero-width sentinels: what a reader sees. */
  function Visible(s: string): string {
    if s == [] then [] else (if s[0] == SENTINEL then [] else [s[0]]) + Visible(s[1..])
  }

  lemma {:induction false} VisibleConcat(s: string, t: string)
    ensures Visible(s + t) == Visible(s) + Visible(t)
  {
    if s == [] {
      assert s + t == t;
    } else {
      assert (s + t)[1..] == s[1..] + t;
      VisibleConcat(s[1..], t);
    }
  }

  lemma {:induction false} DefuseKeepsVisible(text: string, token: string)
    requires IsTag(token)
    ensures Visible(Defuse(text, token)) == Visible(text)
  {
    var rep := "<" + [SENTINEL] + token[1..];
    if |text| < |token| {
    } else if token <= text {
      DefuseKeepsVisible(text[|token|..], token);
      VisibleConcat(rep, Defuse(text[|token|..], token));
      VisibleConcat(token, text[|token|..]);
      assert text == token + text[|token|..];
      assert token == "<" + token[1..];
      assert rep[1..][1..] == token[1..];
      assert Visible(rep) == Visible(token);
    } else {
      DefuseKeepsVisible(text[1..], token);
    }
  }

  /** Neutralizing adds zero-width characters only. */
  lemma {:induction false} DefuseAllKeepsVisible(text: string, tokens: seq<string>)
    requires AllDefusable(tokens)
    ensures Visible(DefuseAll(text, tokens)) == Visible(text)
    decreases |tokens|
  {
    if tokens != [] {
      DefuseKeepsVisible(text, tokens[0]);
      DefuseAllKeepsVisible(Defuse(text, tokens[0]), tokens[1..]);
    }
  }

  lemma NeutralizeKeepsVisible(text: string)
    ensures Visible(Neutralize(text)) == Visible(text)
  {
    ControlTokensAreTags();
    DefuseAllKeepsVisible(text, CONTROL_TOKENS);
  }

  // ---------- Neutralizing in one pass ----------

  predicate StartsWithAny(s: string, tokens: seq<string>) {
    exists i :: 0 <= i < |tokens| && tokens[i] <= s
  }

  /** Reference: one pass, with a sentinel after the `<` of every token that stands in the text. */
  function Marked(s: string, tokens: seq<string>): string {
    if s == [] then []
    else if StartsWithAny(s, tokens) then [s[0]] + ([SENTINEL] + Marked(s[1..], tokens))
    else [s[0]] + Marked(s[1..], tokens)
  }

  lemma {:induction false} StartsWithTag(s: string, tokens: seq<string>)
    requires AllDefusable(tokens) && StartsWithAny(s, tokens)
    ensures s != [] && s[0] == '<'
  {
    var i :| 0 <= i < |tokens| && tokens[i] <= s;
    assert IsTag(tokens[i]);
  }

  /** Only a `<` gets a sentinel. */
  lemma {:induction false} MarkedAfterPlain(u: string, rest: string, tokens: seq<string>)
    requires AllDefusable(tokens) && '<' !in u
    ensures Marked(u + rest, tokens) == u + Marked(rest, tokens)
  {
    if u == [] {
      assert u + rest == rest;
    } else {
      if StartsWithAny(u + rest, tokens) {
        StartsWithTag(u + rest, tokens);
      }
      assert (u + rest)[1..] == u[1..] + rest;
      MarkedAfterPlain(u[1..], rest, tokens);
      Assoc([u[0]], u[1..], Marked(rest, tokens));
      assert [u[0]] + u[1..] == u;
    }
  }

  lemma {:induction false} MarkedKeepsPrefix(u: string, s: string, tokens: seq<string>)
    requires AllDefusable(tokens) && '<' !in u && u <= Marked(s, tokens)
    ensures u <= s
  {
    if u != [] {
      assert u[0] in u && Marked(s, tokens)[0] == s[0];
      if StartsWithAny(s, tokens) {
        StartsWithTag(s, tokens);
      }
      assert Marked(s, tokens)[1..] == Marked(s[1..], tokens);
      MarkedKeepsPrefix(u[1..], s[1..], tokens);
      assert s == [s[0]] + s[1..];
      assert u == [u[0]] + u[1..];
    }
  }

  lemma {:induction false} OnlyToken(s: string, token: string)
    ensures StartsWithAny(s, [token]) <==> token <= s
  {
    assert token <= s ==> [token][0] <= s;
  }

  lemma {:induction false} DefuseIsMarked(s: string, token: string)
    requires AllDefusable([token])
    ensures IsTag(token) && Defuse(s, token) == Marked(s, [token])
    decreases |s|
  {
    assert IsTag([token][0]);
    OnlyToken(s, token);
    if |s| < |token| {
      NoneStarts(s, token);
    } else if token <= s {
      var rest := s[|token|..];
      DefuseIsMarked(rest, token);
      assert s[1..] == token[1..] + rest;
      MarkedAfterPlain(token[1..], rest, [token]);
      assert [s[0]] + [SENTINEL] == "<" + [SENTINEL];
      Assoc("<" + [SENTINEL], token[1..], Marked(rest, [token]));
    } else {
      DefuseIsMarked(s[1..], token);
    }
  }

  lemma {:induction false} NoneStarts(s: string, token: string)
    requires |s| < |token|
    ensures Marked(s, [token]) == s
  {
    if s != [] {
      OnlyToken(s, token);
      NoneStarts(s[1..], token);
    }
  }

  lemma {:induction false} StartsWithOneMore(s: string, tokens: seq<string>, t: string)
    ensures StartsWithAny(s, tokens + [t]) <==> StartsWithAny(s, tokens) || t <= s
  {
    var all := tokens + [t];
    if StartsWithAny(s, tokens) {
      var i :| 0 <= i < |tokens| && tokens[i] <= s;
      assert all[i] <= s;
    }
    assert all[|tokens|] == t;
  }

  /** A tag starts in a marked text where it starts in the text and nothing was inserted. */
  lemma {:induction false} TagInMarked(s: string, tokens: seq<string>, t: string)
    requires AllDefusable(tokens) && IsTag(t) && SENTINEL !in t && s != []
    ensures t <= Marked(s, tokens) <==> t <= s && !StartsWithAny(s, tokens)
  {
    var m, rest := Marked(s, tokens), Marked(s[1..], tokens);
    assert t == "<" + t[1..] && s == [s[0]] + s[1..];
    if StartsWithAny(s, tokens) {
      assert m[1] == SENTINEL;
      assert t[1] in t;
    } else {
      assert m == [s[0]] + rest;
      if t <= m {
        assert t[1..] <= rest;
        MarkedKeepsPrefix(t[1..], s[1..], tokens);
      }
      if t <= s {
        assert s[1..] == t[1..] + s[|t|..];
        MarkedAfterPlain(t[1..], s[|t|..], tokens);
      }
    }
  }

  /** What the next pass makes of the first character and its sentinel. */
  lemma {:induction false} MarkedAgain(s: string, tokens: seq<string>, t: string)
    requires AllDefusable(tokens) && AllDefusable([t]) && s != []
    ensures var rest := Marked(Marked(s[1..], tokens), [t]);
      Marked(Marked(s, tokens), [t])
      == if StartsWithAny(s, tokens + [t]) then [s[0]] + ([SENTINEL] + rest) else [s[0]] + rest
  {
    assert IsTag([t][0]) && SENTINEL !in [t][0];
    var m, rest := Marked(s, tokens), Marked(s[1..], tokens);
    TagInMarked(s, tokens, t);
    OnlyToken(m, t);
    StartsWithOneMore(s, tokens, t);
    if StartsWithAny(s, tokens) {
      assert m[1..] == [SENTINEL] + rest;
      MarkedAfterPlain([SENTINEL], rest, [t]);
    } else {
      assert m[1..] == rest;
    }
  }

  lemma {:induction false} MarkedTwice(s: string, tokens: seq<string>, t: string)
    requires AllDefusable(tokens) && AllDefusable([t])
    ensures Marked(Marked(s, tokens), [t]) == Marked(s, tokens + [t])
  {
    if s != [] {
      MarkedAgain(s, tokens, t);
      MarkedTwice(s[1..], tokens, t);
    }
  }

  lemma {:induction false} DefuseMarked(text: string, done: seq<string>, tokens: seq<string>)
    requires AllDefusable(done) && AllDefusable(tokens)
    ensures DefuseAll(Marked(text, done), tokens) == Marked(text, done + tokens)
    decreases |tokens|
  {
    if tokens == [] {
      assert done + tokens == done;
    } else {
      var t := tokens[0];
      DefuseIsMarked(Marked(text, done), t);
      MarkedTwice(text, done, t);
      DefuseMarked(text, done + [t], tokens[1..]);
      assert done + [t] + tokens[1..] == done + tokens;
    }
  }

  lemma {:induction false} MarkedWithNone(s: string)
    ensures Marked(s, []) == s
  {
    if s != [] {
      MarkedWithNone(s[1..]);
    }
  }

  /** The six replacements amount to one pass over the text. */
  lemma NeutralizeIsOnePass(text: string)
    ensures Neutralize(text) == Marked(text, CONTROL_TOKENS)
  {
    ControlTokensAreTags();
    MarkedWithNone(text);
    DefuseMarked(text, [], CONTROL_TOKENS);
    assert [] + CONTROL_TOKENS == CONTROL_TOKENS;
  }

  // ---------- Collapsing blank lines ----------

  /** Reference: every run of line breaks is cut to at most two. */
  function Squeeze(s: string): string {
    if s == [] then []
    else if |s| >= 3 && s[0] == s[1] == s[2] == '\n' then Squeeze(s[1..])
    else [s[0]] + Squeeze(s[1..])
  }

  lemma {:induction false} SqueezeStable(s: string)
    requires !Contains(s, "\n\n\n")
    ensures Squeeze(s) == s
  {
    if s != [] {
      assert !OccursAt(s, "\n\n\n", 0);
      AbsentFromTail(s, "\n\n\n");
      SqueezeStable(s[1..]);
    }
  }

  ghost predicate LineBreaks(p: string, n: nat) {
    |p| == n && forall i :: 0 <= i < n ==> p[i] == '\n'
  }

  lemma {:induction false} SqueezeLongRun(p: string, x: string)
    requires LineBreaks(p, |p|) && |p| >= 2
    ensures Squeeze(p + x) == Squeeze("\n\n" + x)
  {
    if |p| == 2 {
      assert p == "\n\n";
    } else {
      assert (p + x)[1..] == p[1..] + x;
      SqueezeLongRun(p[1..], x);
    }
  }

  lemma {:induction false} SqueezeAfterRun(p: string, c: char, x: string)
    requires LineBreaks(p, |p|) && |p| <= 2 && c != '\n'
    ensures Squeeze(p + [c] + x) == p + [c] + Squeeze(x)
  {
    if p == [] {
      assert p + [c] + x == [c] + x;
      assert ([c] + x)[1..] == x;
    } else {
      var s := p + [c] + x;
      assert s[|p|] == c;
      assert s[1..] == p[1..] + [c] + x;
      SqueezeAfterRun(p[1..], c, x);
    }
  }

  /** One `replace` round does not change what squeezing yields, whatever line breaks precede it. */
  lemma {:induction false} ReplaceRoundKeepsSqueeze(p: string, s: string)
    requires LineBreaks(p, |p|) && |p| <= 2
    ensures Squeeze(p + Replace(s, "\n\n\n", "\n\n")) == Squeeze(p + s)
    decreases |s|
  {
    var r := Replace(s, "\n\n\n", "\n\n");
    if |s| < 3 {
    } else if "\n\n\n" <= s {
      var rest := Replace(s[3..], "\n\n\n", "\n\n");
      Assoc(p, "\n\n", rest);
      assert s == "\n\n\n" + s[3..];
      Assoc(p, "\n\n\n", s[3..]);
      SqueezeLongRun(p + "\n\n", rest);
      SqueezeLongRun(p + "\n\n\n", s[3..]);
      ReplaceRoundKeepsSqueeze("\n\n", s[3..]);
    } else {
      var rest := Replace(s[1..], "\n\n\n", "\n\n");
      var q := p + [s[0]];
      Assoc(p, [s[0]], rest);
      assert s == [s[0]] + s[1..];
      Assoc(p, [s[0]], s[1..]);
      if s[0] != '\n' {
        SqueezeAfterRun(p, s[0], rest);
        SqueezeAfterRun(p, s[0], s[1..]);
        ReplaceRoundKeepsSqueeze([], s[1..]);
        assert [] + rest == rest;
        assert [] + s[1..] == s[1..];
      } else if |q| <= 2 {
        ReplaceRoundKeepsSqueeze(q, s[1..]);
      } else {
        SqueezeLongRun(q, rest);
        SqueezeLongRun(q, s[1..]);
        ReplaceRoundKeepsSqueeze("\n\n", s[1..]);
      }
    }
  }

  /** Collapsing leaves no triple line break and creates no tag. */
  lemma {:induction false} SqueezeIsClean(s: string, t: string)
    requires IsTag(t)
    ensures !Contains(Squeeze(s), "\n\n\n")
    ensures !Contains(s, t) ==> !Contains(Squeeze(s), t)
    decreases |s|
  {
    if Contains(s, "\n\n\n") {
      var r := Replace(s, "\n\n\n", "\n\n");
      ReplaceRoundKeepsSqueeze([], s);
      assert [] + s == s && [] + r == r;
      ReplaceLength(s, "\n\n\n", "\n\n");
      if !Contains(s, t) {
        ReplaceCreatesNone(s, "\n\n\n", "\n\n", t);
      }
      SqueezeIsClean(r, t);
    } else {
      SqueezeStable(s);
    }
  }

  // ---------- The whole clean-up ----------

  predicate AreSound(t: Tags) {
    && AreDistinct(t.analysisOpen, t.analysisClose) && AreDistinct(t.analysisOpen, t.summaryOpen)
    && AreDistinct(t.summaryOpen, t.summaryClose) && AreDistinct(t.summaryClose, t.analysisOpen)
  }

  lemma TagsAreSound()
    ensures AreSound(TAGS)
  {
  }

  predicate IsBlankBetween(s: string, i: nat, j: nat) { i <= j <= |s| && Trim(s[i..j]) == [] }

  /** The scratchpad test of the loop: nothing but white space lies between the start of the
      text (or of the summary block) and the `<analysis>` tag at `start`. */
  predicate IsLeading(s: string, start: nat, summaryOpen: string) {
    match Find(s, summaryOpen)
    case Some(sp) => start < sp || IsBlankBetween(s, sp + |summaryOpen|, start)
    case None => IsBlankBetween(s, 0, start)
  }

  /** What one round of the stripping loop leaves, and whether it goes on. */
  datatype Round = Done(text: string) | More(text: string)

  /** One round: the first `<analysis>` block is dropped when it leads. */
  function StripOnce(s: string, t: Tags, leads: (string, nat) -> bool): Round {
    match Find(s, t.analysisOpen)
    case None => Done(s)
    case Some(start) =>
      if !leads(s, start) then Done(s)
      else match FindFrom(s, t.analysisClose, start)
        case Some(close) => More(s[..start] + s[close + |t.analysisClose|..])
        case None =>
          match FindFrom(s, t.summaryOpen, start)
          case Some(sp) => Done(s[..start] + s[sp..])
          case None => Done(s[..start])
  }

  function Leading(summaryOpen: string): (string, nat) -> bool {
    (s: string, start: nat) => IsLeading(s, start, summaryOpen)
  }

  function Once(t: Tags, leads: (string, nat) -> bool): string -> Round {
    s => StripOnce(s, t, leads)
  }

  /** Round after round; a round that goes on has dropped something. */
  function Rounds(s: string, once: string -> Round): string
    decreases |s|
  {
    match once(s)
    case Done(r) => r
    case More(r) => if |r| < |s| then Rounds(r, once) else r
  }

  /** The text without its leading `<analysis>` blocks. */
  function StripAnalysis(s: string, t: Tags): string {
    Rounds(s, Once(t, Leading(t.summaryOpen)))
  }

  const MARKUP := ['#', '*', '-', '>', ' ', '\t']

  function SkipMarkup(s: string): string {
    if s != [] && s[0] in MARKUP then SkipMarkup(s[1..]) else s
  }

  function WithoutTag(s: string, tag: string): string {
    if tag <= s then TrimStart(s[|tag|..]) else s
  }

  predicate IsNumbered(s: string) {
    var lead := SkipMarkup(s);
    lead != [] && IsDigit(lead[0])
  }

  /** Drop what precedes the last `close`, unless the text opens with a numbered section. */
  function Peeled(s: string, close: string, numbered: bool): string {
    if numbered then s
    else match RFind(s, close)
      case Some(pos) => TrimStart(s[pos + |close|..])
      case None => s
  }

  function StripLeadingScratchpad(inner: string, t: Tags): string {
    var s := Trim(inner);
    WithoutTag(Peeled(s, t.analysisClose, IsNumbered(s)), t.summaryOpen)
  }

  /** Turn the block from the first `open` to the last `close`, when there is one, into a section. */
  function Unwrap(s: string, open: string, close: string, section: string -> string): string
    requires AreDistinct(open, close)
  {
    match (Find(s, open), RFind(s, close))
    case (Some(start), Some(end)) =>
      if end <= start then s
      else
        TagsApart(s, open, start, close, end);
        s[..start] + section(s[start + |open|..end]) + s[end + |close|..]
    case _ => s
  }

  /** The plain `Summary:` section for a block with this inner text. */
  function Section(inner: string, t: Tags): string {
    t.heading + StripLeadingScratchpad(Trim(inner), t)
  }

  function UnwrapSummary(s: string, t: Tags): string
    requires AreSound(t)
  {
    Unwrap(s, t.summaryOpen, t.summaryClose, inner => Section(inner, t))
  }

  function Formatted(summary: string): string {
    TagsAreSound();
    Trim(Squeeze(Neutralize(UnwrapSummary(StripAnalysis(summary, TAGS), TAGS))))
  }

  /** The imperative clean-up, loop by loop; it ends on every input and computes `Formatted`. */
  method FormatCompactSummary(summary: string) returns (result: string)
    ensures result == Formatted(summary)
  {
    TagsAreSound();
    result := StripLoop(summary, TAGS);
    result := Neutralize(UnwrapSummary(result, TAGS));
    ghost var neutral := result;
    while Find(result, "\n\n\n").Some?
      invariant Squeeze(result) == Squeeze(neutral)
      decreases |result|
    {
      ReplaceLength(result, "\n\n\n", "\n\n");
      ReplaceRoundKeepsSqueeze([], result);
      assert [] + result == result;
      assert [] + Replace(result, "\n\n\n", "\n\n") == Replace(result, "\n\n\n", "\n\n");
      result := Replace(result, "\n\n\n", "\n\n");
    }
    SqueezeStable(result);
    result := Trim(result);
  }

  method StripLoop(summary: string, t: Tags) returns (result: string)
    requires AreSound(t)
    ensures result == StripAnalysis(summary, t)
  {
    result := summary;
    ghost var once := Once(t, Leading(t.summaryOpen));
    while true
      invariant Rounds(result, once) == Rounds(summary, once)
      decreases |result|
    {
      var round := StripRound(result, t);
      result := round.text;
      if round.Done? {
        return;
      }
    }
  }

  method StripRound(s: string, t: Tags) returns (round: Round)
    requires AreSound(t)
    ensures round == Once(t, Leading(t.summaryOpen))(s) && (round.More? ==> |round.text| < |s|)
  {
    var open := Find(s, t.analysisOpen);
    if open.None? {
      return Done(s);
    }
    var start := open.value;
    var isLeading := TestLeading(s, start, t);
    assert isLeading == Leading(t.summaryOpen)(s, start);
    if !isLeading {
      return Done(s);
    }
    match FindFrom(s, t.analysisClose, start) {
      case Some(close) =>
        round := More(s[..start] + s[close + |t.analysisClose|..]);
      case None =>
        var sp := FindFrom(s, t.summaryOpen, start);
        var dropTo := if sp.Some? then sp.value else |s|;
        round := Done(s[..start] + s[dropTo..]);
    }
  }

  /** The slices of the test are always in range. */
  method TestLeading(s: string, start: nat, t: Tags) returns (isLeading: bool)
    requires AreSound(t) && OccursAt(s, t.analysisOpen, start)
    ensures isLeading == IsLeading(s, start, t.summaryOpen)
  {
    match Find(s, t.summaryOpen) {
      case Some(sp) =>
        TagsApart(s, t.summaryOpen, sp, t.analysisOpen, start);
        isLeading := start < sp || Trim(s[sp + |t.summaryOpen|..start]) == [];
      case None =>
        assert s[0..start] == s[..start];
        isLeading := Trim(s[..start]) == [];
    }
  }

  /** What the next turn can rely on: no live control token, no triple line break, no outer white space. */
  ghost predicate IsClean(s: string) {
    && HasNoToken(s)
    && !Contains(s, "\n\n\n")
    && IsTrimmed(s)
  }

  ghost predicate HasNoToken(s: string) {
    forall i :: 0 <= i < |CONTROL_TOKENS| ==> !Contains(s, CONTROL_TOKENS[i])
  }

  lemma CleanedOf(text: string, tokens: seq<string>, t: string)
    requires AllDefusable(tokens) && IsTag(t) && SENTINEL !in t
    ensures var r := Trim(Squeeze(DefuseAll(text, tokens)));
      (t in tokens ==> !Contains(r, t)) && !Contains(r, "\n\n\n") && IsTrimmed(r)
  {
    var n := DefuseAll(text, tokens);
    var q := Squeeze(n);
    SqueezeIsClean(n, t);
    if t in tokens {
      DefuseAllRemoves(text, tokens, t);
      TrimKeepsAbsent(q, t);
    }
    TrimKeepsAbsent(q, "\n\n\n");
    TrimIsTrimmed(q);
  }

  lemma FormattedIsClean(summary: string)
    ensures IsClean(Formatted(summary))
  {
    ControlTokensAreTags();
    TagsAreSound();
    var text, tokens := UnwrapSummary(StripAnalysis(summary, TAGS), TAGS), CONTROL_TOKENS;
    CleanedOf(text, tokens, tokens[0]);
    forall k | 0 <= k < |tokens| ensures !Contains(Formatted(summary), tokens[k]) {
      CleanedOf(text, tokens, tokens[k]);
    }
  }

  /** A clean text is left exactly as it is. */
  lemma CleanIsFixed(s: string)
    requires IsClean(s)
    ensures Formatted(s) == s
  {
    TagsAreSound();
    NoTagIn(s);
    NoTokenIsNeutral(s);
    SqueezeStable(s);
    TrimIsTrimmed(s);
  }

  lemma NoTokenIsNeutral(s: string)
    requires HasNoToken(s)
    ensures Neutralize(s) == s
  {
    ControlTokensAreTags();
    DefuseAllAbsent(s, CONTROL_TOKENS);
  }

  lemma NoTagIn(s: string)
    requires HasNoToken(s)
    ensures !Contains(s, TAGS.summaryOpen) && !Contains(s, TAGS.summaryClose)
    ensures !Contains(s, TAGS.analysisOpen) && !Contains(s, TAGS.analysisClose)
  {
    assert CONTROL_TOKENS[0] == TAGS.summaryClose && CONTROL_TOKENS[1] == TAGS.summaryOpen;
    assert CONTROL_TOKENS[2] == TAGS.analysisClose && CONTROL_TOKENS[3] == TAGS.analysisOpen;
  }

  /** The texts cleaning leaves alone are exactly the clean ones; so cleaning twice is cleaning once. */
  lemma FormatIdempotent(s: string)
    ensures Formatted(Formatted(s)) == Formatted(s)
    ensures Formatted(s) == s <==> IsClean(s)
  {
    FormattedIsClean(s);
    CleanIsFixed(Formatted(s));
    if IsClean(s) {
      CleanIsFixed(s);
    }
  }

  // ---------- Leading analysis blocks, read off the text ----------

  ghost predicate IsBlank(s: string) { forall c :: c in s ==> IsSpace(c) }

  lemma BlankTrims(s: string)
    ensures Trim(s) == [] <==> IsBlank(s)
  {
    if IsBlank(s) {
      AllSpaceTrims(s);
    } else {
      var c :| c in s && !IsSpace(c);
      var i :| 0 <= i < |s| && s[i] == c;
      TrimKeepsVisible(s, i);
    }
  }

  /** An `<analysis>` tag between these two texts leads: only white space precedes it in the text, or
      in the summary block it stands in, or the summary is still to come. */
  ghost predicate Leads(pre: string, rest: string, t: Tags) {
    if Contains(pre, t.summaryOpen) then exists k: nat :: OpensBlock(pre, k, t.summaryOpen)
    else IsBlank(pre) || Contains(rest, t.summaryOpen)
  }

  ghost predicate OpensBlock(s: string, k: nat, tag: string) {
    IsFirst(s, tag, 0, k) && IsBlank(s[k + |tag|..])
  }

  lemma LeadsInBlock(s: string, pre: string, tag: string, k: nat)
    requires pre <= s && Find(s, tag) == Some(k) && IsFirst(pre, tag, 0, k)
    ensures IsLeading(s, |pre|, tag) <==> exists j: nat :: OpensBlock(pre, j, tag)
  {
    BlankBetweenIs(s, pre, k + |tag|);
    assert IsBlankBetween(s, k + |tag|, |pre|) <==> OpensBlock(pre, k, tag);
    forall j: nat | OpensBlock(pre, j, tag) ensures j == k {
    }
  }

  lemma LeadingIsLeads(s: string, pre: string, rest: string, t: Tags)
    requires AreSound(t) && s == pre + t.analysisOpen + rest
    ensures IsLeading(s, |pre|, t.summaryOpen) <==> Leads(pre, rest, t)
  {
    FindOtherTag(pre, t.analysisOpen, rest, t.summaryOpen);
    match Find(pre, t.summaryOpen) {
      case Some(k) =>
        LeadsInBlock(s, pre, t.summaryOpen, k);
      case None =>
        BlankBetweenIs(s, pre, 0);
        assert pre[0..] == pre;
    }
  }

  lemma BlankBetweenIs(s: string, pre: string, i: nat)
    requires pre <= s && i <= |pre|
    ensures IsBlankBetween(s, i, |pre|) <==> IsBlank(pre[i..])
  {
    assert s[i..|pre|] == pre[i..];
    BlankTrims(pre[i..]);
  }

  /** What a round finds at a leading `<analysis>` tag. */
  lemma LeadingFound(s: string, pre: string, rest: string, t: Tags)
    requires AreSound(t) && s == pre + t.analysisOpen + rest
    requires !Contains(pre, t.analysisOpen) && Leads(pre, rest, t)
    ensures Find(s, t.analysisOpen) == Some(|pre|) && IsLeading(s, |pre|, t.summaryOpen)
  {
    FindFirstTag(pre, t.analysisOpen, rest);
    LeadingIsLeads(s, pre, rest, t);
  }

  /** The text opens with a closed analysis, `a`, behind `pre`. */
  ghost predicate OpensClosed(s: string, pre: string, a: string, post: string, t: Tags) {
    && s == pre + t.analysisOpen + (a + t.analysisClose + post)
    && !Contains(pre, t.analysisOpen) && !Contains(a, t.analysisClose) && Leads(pre, a + t.analysisClose + post, t)
  }

  lemma CutClosed(s: string, pre: string, close: nat, post: string, t: Tags, leads: (string, nat) -> bool)
    requires Find(s, t.analysisOpen) == Some(|pre|) && leads(s, |pre|)
    requires FindFrom(s, t.analysisClose, |pre|) == Some(close)
    requires s[..|pre|] == pre && s[close + |t.analysisClose|..] == post
    ensures StripOnce(s, t, leads) == More(pre + post)
  {
  }

  lemma ClosedIsCut(s: string, pre: string, a: string, post: string, t: Tags, leads: (string, nat) -> bool)
    requires AreDistinct(t.analysisOpen, t.analysisClose)
    requires s == pre + t.analysisOpen + (a + t.analysisClose + post) && leads(s, |pre|)
    requires Find(s, t.analysisOpen) == Some(|pre|) && !Contains(a, t.analysisClose)
    ensures StripOnce(s, t, leads) == More(pre + post)
  {
    CloseFound(s, pre, t.analysisOpen, a, t.analysisClose, post);
    CutClosed(s, pre, |pre| + |t.analysisOpen| + |a|, post, t, leads);
  }

  lemma RoundGoesOn(s: string, r: string, once: string -> Round)
    requires once(s) == More(r) && |r| < |s|
    ensures Rounds(s, once) == Rounds(r, once)
  {
  }

  lemma AnalysisIsStripped(s: string, pre: string, a: string, post: string, t: Tags)
    requires AreSound(t) && OpensClosed(s, pre, a, post, t)
    ensures StripAnalysis(s, t) == StripAnalysis(pre + post, t)
  {
    var leads := Leading(t.summaryOpen);
    LeadingFound(s, pre, a + t.analysisClose + post, t);
    ClosedIsCut(s, pre, a, post, t, leads);
    RoundGoesOn(s, pre + post, Once(t, leads));
  }

  /** The first `<analysis>` tag of the text stands at `i` and leads. */
  ghost predicate LeadsAt(s: string, i: nat, t: Tags) {
    && OccursAt(s, t.analysisOpen, i) && !Contains(s[..i], t.analysisOpen)
    && Leads(s[..i], s[i + |t.analysisOpen|..], t)
  }

  /** No analysis block leads the text. */
  ghost predicate IsSettled(s: string, t: Tags) {
    forall i: nat :: !LeadsAt(s, i, t)
  }

  lemma SettledIsKept(s: string, t: Tags)
    requires AreSound(t) && IsSettled(s, t)
    ensures StripAnalysis(s, t) == s
  {
    var f := Find(s, t.analysisOpen);
    if f.Some? {
      BeforeFirst(s, t.analysisOpen, f.value);
      LeadingIsLeads(s, s[..f.value], s[f.value + |t.analysisOpen|..], t);
      assert !LeadsAt(s, f.value, t);
    }
  }

  /** The text opens with an analysis that is never closed, and goes on with its summary, if any. */
  ghost predicate OpensUnfinished(s: string, pre: string, a: string, kept: string, t: Tags) {
    && s == pre + t.analysisOpen + (a + kept)
    && !Contains(pre, t.analysisOpen) && !Contains(a + kept, t.analysisClose) && Leads(pre, a + kept, t)
    && !Contains(a, t.summaryOpen) && (kept == [] || t.summaryOpen <= kept)
  }

  lemma NothingFound(s: string, pre: string, open: string, rest: string, close: string)
    requires AreDistinct(open, close) && !Contains(rest, close) && s == pre + open + rest
    ensures FindFrom(s, close, |pre|) == None && s[..|pre|] == pre
  {
    FindBehindTag(pre, open, rest, close);
  }

  lemma SummaryFound(s: string, pre: string, open: string, a: string, kept: string, tag: string)
    requires AreDistinct(open, tag) && !Contains(a, tag) && tag <= kept && s == pre + open + (a + kept)
    ensures FindFrom(s, tag, |pre|) == Some(|pre| + |open| + |a|)
    ensures s[..|pre|] == pre && s[|pre| + |open| + |a|..] == kept
  {
    assert kept == tag + kept[|tag|..];
    Assoc(a, tag, kept[|tag|..]);
    CloseFound(s, pre, open, a, tag, kept[|tag|..]);
  }

  lemma CutToEnd(s: string, pre: string, a: string, t: Tags, leads: (string, nat) -> bool)
    requires AreSound(t) && s == pre + t.analysisOpen + a && leads(s, |pre|)
    requires Find(s, t.analysisOpen) == Some(|pre|)
    requires !Contains(a, t.analysisClose) && !Contains(a, t.summaryOpen)
    ensures StripOnce(s, t, leads) == Done(pre)
  {
    NothingFound(s, pre, t.analysisOpen, a, t.analysisClose);
    NothingFound(s, pre, t.analysisOpen, a, t.summaryOpen);
  }

  lemma CutTo(s: string, pre: string, sp: nat, kept: string, t: Tags, leads: (string, nat) -> bool)
    requires Find(s, t.analysisOpen) == Some(|pre|) && leads(s, |pre|)
    requires FindFrom(s, t.analysisClose, |pre|) == None && FindFrom(s, t.summaryOpen, |pre|) == Some(sp)
    requires s[..|pre|] == pre && s[sp..] == kept
    ensures StripOnce(s, t, leads) == Done(pre + kept)
  {
  }

  lemma CutToSummary(s: string, pre: string, a: string, kept: string, t: Tags, leads: (string, nat) -> bool)
    requires AreSound(t) && s == pre + t.analysisOpen + (a + kept) && leads(s, |pre|)
    requires Find(s, t.analysisOpen) == Some(|pre|) && !Contains(a + kept, t.analysisClose)
    requires !Contains(a, t.summaryOpen) && t.summaryOpen <= kept
    ensures StripOnce(s, t, leads) == Done(pre + kept)
  {
    NothingFound(s, pre, t.analysisOpen, a + kept, t.analysisClose);
    SummaryFound(s, pre, t.analysisOpen, a, kept, t.summaryOpen);
    CutTo(s, pre, |pre| + |t.analysisOpen| + |a|, kept, t, leads);
  }

  lemma UnfinishedIsStripped(s: string, pre: string, a: string, kept: string, t: Tags)
    requires AreSound(t) && OpensUnfinished(s, pre, a, kept, t)
    ensures StripAnalysis(s, t) == pre + kept
  {
    var leads := Leading(t.summaryOpen);
    LeadingFound(s, pre, a + kept, t);
    if kept == [] {
      assert a + kept == a && pre + kept == pre;
      CutToEnd(s, pre, a, t, leads);
    } else {
      CutToSummary(s, pre, a, kept, t, leads);
    }
    assert Once(t, leads)(s) == Done(pre + kept);
  }

  // ---------- The summary block, read off the text ----------

  predicate AllMarkup(s: string) { forall i :: 0 <= i < |s| ==> s[i] in MARKUP }

  /** Behind its markdown markup the text opens with a digit: a numbered section. */
  ghost predicate OpensNumbered(s: string) {
    exists k :: 0 <= k < |s| && IsDigit(s[k]) && AllMarkup(s[..k])
  }

  lemma {:induction false} SkipMarkupIs(s: string) returns (k: nat)
    ensures k <= |s| && SkipMarkup(s) == s[k..] && AllMarkup(s[..k]) && (k < |s| ==> s[k] !in MARKUP)
  {
    k := 0;
    if s != [] && s[0] in MARKUP {
      var j := SkipMarkupIs(s[1..]);
      k := j + 1;
      assert s[1..][j..] == s[k..];
      forall i | 0 <= i < k ensures s[..k][i] in MARKUP {
        if i > 0 {
          assert s[..k][i] == s[1..][..j][i - 1];
        }
      }
    } else {
      assert s[0..] == s;
    }
  }

  lemma MarkupEndsOnce(s: string, j: nat, k: nat)
    requires j < |s| && s[j] !in MARKUP && AllMarkup(s[..j])
    requires k <= |s| && AllMarkup(s[..k]) && (k < |s| ==> s[k] !in MARKUP)
    ensures j == k
  {
    assert forall i :: 0 <= i < j ==> s[i] == s[..j][i];
    assert forall i :: 0 <= i < k ==> s[i] == s[..k][i];
  }

  lemma NumberedIsSkipped(s: string)
    ensures OpensNumbered(s) <==> IsNumbered(s)
  {
    var k := SkipMarkupIs(s);
    if OpensNumbered(s) {
      var j :| 0 <= j < |s| && IsDigit(s[j]) && AllMarkup(s[..j]);
      MarkupEndsOnce(s, j, k);
    }
  }

  /** What the text of a block keeps: all of it when it opens numbered, else what follows the last
      stray `</analysis>`. */
  ghost predicate IsPeeled(text: string, kept: string, close: string) {
    if OpensNumbered(text) || !Contains(text, close) then kept == text
    else exists k: nat :: IsLast(text, close, k) && kept == TrimStart(text[k + |close|..])
  }

  lemma PeeledIs(text: string, kept: string, close: string, numbered: bool)
    requires numbered <==> OpensNumbered(text)
    ensures IsPeeled(text, kept, close) <==> kept == Peeled(text, close, numbered)
  {
    var last := RFind(text, close);
    if last.Some? {
      forall k: nat | IsLast(text, close, k) ensures k == last.value {
      }
    }
  }

  /** The body of a block with this inner text; a second opening tag at its start goes as well. */
  ghost predicate IsBody(inner: string, body: string, t: Tags) {
    exists kept ::
      && IsPeeled(Trim(inner), kept, t.analysisClose)
      && body == if t.summaryOpen <= kept then TrimStart(kept[|t.summaryOpen|..]) else kept
  }

  lemma BodyIs(inner: string, body: string, t: Tags)
    ensures IsBody(inner, body, t) <==> StripLeadingScratchpad(Trim(inner), t) == body
  {
    var text := Trim(inner);
    TrimIsTrimmed(inner);
    TrimIsTrimmed(text);
    NumberedIsSkipped(text);
    BodyFrom(text, body, t, IsNumbered(text));
  }

  lemma BodyFrom(text: string, body: string, t: Tags, numbered: bool)
    requires numbered <==> OpensNumbered(text)
    ensures (exists kept :: IsPeeled(text, kept, t.analysisClose) && body == WithoutTag(kept, t.summaryOpen))
       <==> body == WithoutTag(Peeled(text, t.analysisClose, numbered), t.summaryOpen)
  {
    var kept := Peeled(text, t.analysisClose, numbered);
    PeeledIs(text, kept, t.analysisClose, numbered);
    if other :| IsPeeled(text, other, t.analysisClose) && body == WithoutTag(other, t.summaryOpen) {
      PeeledIs(text, other, t.analysisClose, numbered);
    }
  }

  /** The whole text holds a block: everything from its first opening tag to its last closing one. */
  ghost predicate IsBlock(s: string, pre: string, open: string, inner: string, close: string, post: string) {
    s == pre + open + (inner + close + post) && !Contains(pre, open) && !Contains(post, close)
  }

  ghost predicate HasNoBlock(s: string, open: string, close: string) {
    forall i: nat, j: nat :: OccursAt(s, open, i) && OccursAt(s, close, j) ==> j < i
  }

  lemma BlockSlices(s: string, pre: string, open: string, inner: string, close: string, post: string)
    requires s == pre + open + (inner + close + post)
    ensures var start := |pre| + |open|;
      && s[..|pre|] == pre && s[start..start + |inner|] == inner && s[start + |inner| + |close|..] == post
      && s == pre + open + inner + close + post
  {
  }

  lemma BlockFound(s: string, pre: string, open: string, inner: string, close: string, post: string)
    requires IsTag(open) && IsTag(close) && IsBlock(s, pre, open, inner, close, post)
    ensures Find(s, open) == Some(|pre|) && RFind(s, close) == Some(|pre| + |open| + |inner|)
  {
    FindFirstTag(pre, open, inner + close + post);
    BlockSlices(s, pre, open, inner, close, post);
    FindLastTag(pre + open + inner, close, post);
  }

  lemma UnwrapAt(
    s: string, pre: string, open: string, inner: string, close: string, post: string, section: string -> string)
    requires AreDistinct(open, close)
    requires Find(s, open) == Some(|pre|) && RFind(s, close) == Some(|pre| + |open| + |inner|)
    requires s[..|pre|] == pre && s[|pre| + |open|..|pre| + |open| + |inner|] == inner
    requires s[|pre| + |open| + |inner| + |close|..] == post
    ensures Unwrap(s, open, close, section) == pre + section(inner) + post
  {
  }

  lemma UnwrapBlock(
    s: string, pre: string, open: string, inner: string, close: string, post: string, section: string -> string)
    requires AreDistinct(open, close) && IsBlock(s, pre, open, inner, close, post)
    ensures Unwrap(s, open, close, section) == pre + section(inner) + post
  {
    BlockFound(s, pre, open, inner, close, post);
    BlockSlices(s, pre, open, inner, close, post);
    UnwrapAt(s, pre, open, inner, close, post, section);
  }

  lemma UnwrapNothing(s: string, open: string, close: string, section: string -> string)
    requires AreDistinct(open, close) && HasNoBlock(s, open, close)
    ensures Unwrap(s, open, close, section) == s
  {
  }

  lemma NoBlockIs(s: string, open: string, i: nat, close: string, j: nat)
    requires AreDistinct(open, close) && IsFirst(s, open, 0, i) && IsLast(s, close, j) && j <= i
    ensures HasNoBlock(s, open, close)
  {
    TagsApart(s, open, i, close, j);
    forall k: nat, l: nat | OccursAt(s, open, k) && OccursAt(s, close, l) ensures l < k {
      assert i <= k && l <= j;
    }
  }

  lemma BlockFrom(s: string, open: string, i: nat, close: string, j: nat)
    returns (pre: string, inner: string, post: string)
    requires AreDistinct(open, close) && IsFirst(s, open, 0, i) && IsLast(s, close, j) && i < j
    ensures IsBlock(s, pre, open, inner, close, post)
  {
    TagsApart(s, open, i, close, j);
    BeforeFirst(s, open, i);
    BehindLast(s, close, j);
    pre, inner, post := s[..i], s[i + |open|..j], s[j + |close|..];
    assert s[i + |open|..] == inner + close + post;
  }

  lemma NoBlockWithout(s: string, open: string, close: string)
    requires !Contains(s, open) || !Contains(s, close)
    ensures HasNoBlock(s, open, close)
  {
  }

  /** Every text holds a block or does not. */
  lemma BlockOrNot(s: string, open: string, close: string) returns (pre: string, inner: string, post: string)
    requires AreDistinct(open, close)
    ensures HasNoBlock(s, open, close) || IsBlock(s, pre, open, inner, close, post)
  {
    var first, last := Find(s, open), RFind(s, close);
    pre, inner, post := [], [], [];
    if first.None? || last.None? {
      NoBlockWithout(s, open, close);
    } else if last.value <= first.value {
      NoBlockIs(s, open, first.value, close, last.value);
    } else {
      pre, inner, post := BlockFrom(s, open, first.value, close, last.value);
    }
  }

  ghost predicate RendersBlock(
    s: string, out: string, pre: string, inner: string, post: string, body: string, t: Tags)
  {
    && IsBlock(s, pre, t.summaryOpen, inner, t.summaryClose, post)
    && IsBody(inner, body, t)
    && out == pre + (t.heading + body) + post
  }

  /** A block becomes a plain `Summary:` section; a text without one stays as it is. */
  ghost predicate Renders(s: string, out: string, t: Tags) {
    || (HasNoBlock(s, t.summaryOpen, t.summaryClose) && out == s)
    || exists pre, inner, post, body :: RendersBlock(s, out, pre, inner, post, body, t)
  }

  lemma RenderedBlockIs(s: string, out: string, pre: string, inner: string, post: string, body: string, t: Tags)
    requires AreSound(t) && RendersBlock(s, out, pre, inner, post, body, t)
    ensures UnwrapSummary(s, t) == out
  {
    UnwrapBlock(s, pre, t.summaryOpen, inner, t.summaryClose, post, x => Section(x, t));
    BodyIs(inner, body, t);
  }

  lemma RenderedIsUnwrapped(s: string, out: string, t: Tags)
    requires AreSound(t) && Renders(s, out, t)
    ensures UnwrapSummary(s, t) == out
  {
    if HasNoBlock(s, t.summaryOpen, t.summaryClose) && out == s {
      UnwrapNothing(s, t.summaryOpen, t.summaryClose, x => Section(x, t));
    } else {
      var pre, inner, post, body :| RendersBlock(s, out, pre, inner, post, body, t);
      RenderedBlockIs(s, out, pre, inner, post, body, t);
    }
  }

  /** Every text renders to something; by the law above, to one thing only. */
  lemma EveryTextRenders(s: string, t: Tags) returns (out: string)
    requires AreSound(t)
    ensures Renders(s, out, t)
  {
    var pre, inner, post := BlockOrNot(s, t.summaryOpen, t.summaryClose);
    if HasNoBlock(s, t.summaryOpen, t.summaryClose) {
      out := s;
    } else {
      var body := StripLeadingScratchpad(Trim(inner), t);
      BodyIs(inner, body, t);
      out := pre + (t.heading + body) + post;
      assert RendersBlock(s, out, pre, inner, post, body, t);
    }
  }

  // ---------- The laws of the clean-up ----------

  /** A closed analysis that leads the text or its summary block is gone without a trace. */
  lemma AnalysisIsDropped(s: string, pre: string, a: string, post: string)
    requires OpensClosed(s, pre, a, post, TAGS)
    ensures Formatted(s) == Formatted(pre + post)
  {
    TagsAreSound();
    AnalysisIsStripped(s, pre, a, post, TAGS);
  }

  /** One that is never closed goes up to the summary, or to the end when there is none. */
  lemma UnfinishedIsCut(s: string, pre: string, a: string, kept: string, out: string)
    requires OpensUnfinished(s, pre, a, kept, TAGS) && Renders(pre + kept, out, TAGS)
    ensures Formatted(s) == Trim(Squeeze(Neutralize(out)))
  {
    TagsAreSound();
    UnfinishedIsStripped(s, pre, a, kept, TAGS);
    RenderedIsUnwrapped(pre + kept, out, TAGS);
  }

  /** A text no analysis leads is rendered, defused, squeezed and trimmed. */
  lemma SettledIsRendered(s: string, out: string)
    requires IsSettled(s, TAGS) && Renders(s, out, TAGS)
    ensures Formatted(s) == Trim(Squeeze(Neutralize(out)))
  {
    TagsAreSound();
    SettledIsKept(s, TAGS);
    RenderedIsUnwrapped(s, out, TAGS);
  }

  lemma LateIsSettled(s: string, pre: string, rest: string, t: Tags)
    requires AreSound(t) && s == pre + t.analysisOpen + rest
    requires !Contains(pre, t.analysisOpen) && !Leads(pre, rest, t)
    ensures IsSettled(s, t)
  {
    assert s[..|pre|] == pre && s[|pre| + |t.analysisOpen|..] == rest;
    forall i: nat | LeadsAt(s, i, t) ensures i == |pre| {
      OnlyFirst(s, pre, t.analysisOpen, rest, i);
    }
  }

  lemma PrefixHoldsTag(s: string, pre: string, tag: string, rest: string, i: nat)
    requires s == pre + tag + rest && |pre| + |tag| <= i <= |s|
    ensures Contains(s[..i], tag)
  {
    assert s[..i][|pre|..|pre| + |tag|] == tag;
    assert OccursAt(s[..i], tag, |pre|);
  }

  lemma OnlyFirst(s: string, pre: string, tag: string, rest: string, i: nat)
    requires IsTag(tag) && s == pre + tag + rest && !Contains(pre, tag)
    requires OccursAt(s, tag, i) && !Contains(s[..i], tag)
    ensures i == |pre|
  {
    SameTagOccurs(pre, tag, rest, i);
    if i >= |pre| + |tag| {
      PrefixHoldsTag(s, pre, tag, rest, i);
    }
  }

  /** A text without a complete summary block, and without a leading analysis, keeps every visible
      character up to squeezed line breaks and outer white space. */
  lemma TextWithoutBlockIsKept(s: string)
    requires IsSettled(s, TAGS) && HasNoBlock(s, "<summary>", "</summary>")
    ensures Formatted(s) == Trim(Squeeze(Neutralize(s))) && Visible(Neutralize(s)) == Visible(s)
  {
    SettledIsRendered(s, s);
    NeutralizeKeepsVisible(s);
  }

  /** An analysis behind visible text is no scratchpad. */
  lemma LateAnalysisIsKept(pre: string, rest: string)
    requires !Contains(pre, "<analysis>") && !Contains(pre, "<summary>") && !IsBlank(pre)
    requires !Contains(rest, "<summary>")
    ensures var s := pre + "<analysis>" + rest;
      Formatted(s) == Trim(Squeeze(Neutralize(s))) && Visible(Neutralize(s)) == Visible(s)
  {
    TagsAreSound();
    LateIsSettled(pre + "<analysis>" + rest, pre, rest, TAGS);
    FindOtherTag(pre, TAGS.analysisOpen, rest, TAGS.summaryOpen);
    TextWithoutBlockIsKept(pre + "<analysis>" + rest);
  }

  lemma ClosedOrNot(s: string, pre: string, rest: string, t: Tags) returns (a: string, post: string)
    requires AreSound(t) && s == pre + t.analysisOpen + rest
    requires !Contains(pre, t.analysisOpen) && Leads(pre, rest, t)
    ensures OpensClosed(s, pre, a, post, t) || OpensUnfinished(s, pre, a, post, t)
  {
    var close, open := Find(rest, t.analysisClose), Find(rest, t.summaryOpen);
    if close.Some? {
      BeforeFirst(rest, t.analysisClose, close.value);
      a, post := rest[..close.value], rest[close.value + |t.analysisClose|..];
    } else if open.Some? {
      BeforeFirst(rest, t.summaryOpen, open.value);
      a, post := rest[..open.value], rest[open.value..];
      assert rest == a + post;
    } else {
      a, post := rest, [];
      assert rest == a + post;
    }
  }

  /** Every text is settled, opens with a closed analysis or with an unfinished one; the laws above
      tell what becomes of each. */
  lemma EveryTextIsCovered(s: string, t: Tags) returns (pre: string, a: string, post: string)
    requires AreSound(t)
    ensures IsSettled(s, t) || OpensClosed(s, pre, a, post, t) || OpensUnfinished(s, pre, a, post, t)
  {
    pre, a, post := [], [], [];
    if i: nat :| LeadsAt(s, i, t) {
      pre := s[..i];
      assert s == pre + t.analysisOpen + s[i + |t.analysisOpen|..];
      a, post := ClosedOrNot(s, pre, s[i + |t.analysisOpen|..], t);
    }
  }

  // ---------- The cases told apart ----------

  lemma TagHoldsBracket(s: string, tag: string)
    requires IsTag(tag) && Contains(s, tag)
    ensures '<' in s
  {
    var i: nat :| OccursAt(s, tag, i);
    assert s[i] == s[i..i + |tag|][0];
  }

  lemma BlankHoldsNoTag(s: string, tag: string)
    requires IsBlank(s) && IsTag(tag)
    ensures !Contains(s, tag)
  {
    if Contains(s, tag) {
      TagHoldsBracket(s, tag);
    }
  }

  /** Scratchpad in front of everything, or at the start of the summary block. */
  lemma LeadingAnalysisVanishes(pre: string, blank: string, a: string, post: string)
    requires IsBlank(blank) && !Contains(a, "</analysis>")
    requires !Contains(pre, "<summary>") && !Contains(pre, "<analysis>")
    ensures Formatted(blank + "<analysis>" + (a + "</analysis>" + post)) == Formatted(blank + post)
    ensures Formatted(pre + "<summary>" + blank + "<analysis>" + (a + "</analysis>" + post))
         == Formatted(pre + "<summary>" + blank + post)
  {
    TagsAreSound();
    BlankHoldsNoTag(blank, TAGS.analysisOpen);
    BlankHoldsNoTag(blank, TAGS.summaryOpen);
    AnalysisIsDropped(blank + "<analysis>" + (a + "</analysis>" + post), blank, a, post);
    var front := pre + "<summary>" + blank;
    FindFirstTag(pre, TAGS.summaryOpen, blank);
    FindOtherTag(pre, TAGS.summaryOpen, blank, TAGS.analysisOpen);
    assert front[|pre| + |TAGS.summaryOpen|..] == blank;
    assert OpensBlock(front, |pre|, TAGS.summaryOpen);
    AnalysisIsDropped(front + "<analysis>" + (a + "</analysis>" + post), front, a, post);
  }

  lemma SettledWithoutAnalysis(s: string, t: Tags)
    requires !Contains(s, t.analysisOpen)
    ensures IsSettled(s, t)
  {
  }

  lemma PlainBlockIsSettled(pre: string, x: string, post: string, t: Tags)
    requires AreSound(t)
    requires !Contains(pre, t.analysisOpen) && !Contains(x, t.analysisOpen) && !Contains(post, t.analysisOpen)
    ensures IsSettled(pre + t.summaryOpen + (x + t.summaryClose + post), t)
  {
    FindOtherTag(pre, t.summaryOpen, x + t.summaryClose + post, t.analysisOpen);
    FindOtherTag(x, t.summaryClose, post, t.analysisOpen);
    SettledWithoutAnalysis(pre + t.summaryOpen + (x + t.summaryClose + post), t);
  }

  lemma BlockIsShown(pre: string, inner: string, post: string, body: string)
    requires !Contains(pre, "<summary>") && !Contains(post, "</summary>")
    requires IsSettled(pre + "<summary>" + (inner + "</summary>" + post), TAGS) && IsBody(inner, body, TAGS)
    ensures Formatted(pre + "<summary>" + (inner + "</summary>" + post))
         == Trim(Squeeze(Neutralize(pre + ("Summary:\n" + body) + post)))
  {
    var s := pre + "<summary>" + (inner + "</summary>" + post);
    var out := pre + ("Summary:\n" + body) + post;
    assert RendersBlock(s, out, pre, inner, post, body, TAGS);
    SettledIsRendered(s, out);
  }

  lemma PlainBody(x: string, t: Tags)
    requires !Contains(x, t.analysisClose) && !Contains(x, t.summaryOpen)
    ensures IsBody(x, Trim(x), t)
  {
    TrimKeepsAbsent(x, t.analysisClose);
    TrimKeepsAbsent(x, t.summaryOpen);
    assert IsPeeled(Trim(x), Trim(x), t.analysisClose);
    if t.summaryOpen <= Trim(x) {
      assert OccursAt(Trim(x), t.summaryOpen, 0);
    }
  }

  /** A summary in its tags comes out as the plain section, with its text whole. */
  lemma SummaryIsShown(pre: string, x: string, post: string)
    requires HasNoToken(pre) && HasNoToken(x) && HasNoToken(post)
    ensures var shown := pre + ("Summary:\n" + Trim(x)) + post;
      && Formatted(pre + "<summary>" + (x + "</summary>" + post)) == Trim(Squeeze(Neutralize(shown)))
      && Visible(Neutralize(shown)) == Visible(shown)
      && (HasNoToken(shown) ==> Neutralize(shown) == shown)
  {
    TagsAreSound();
    NoTagIn(pre);
    NoTagIn(x);
    NoTagIn(post);
    PlainBlockIsSettled(pre, x, post, TAGS);
    PlainBody(x, TAGS);
    BlockIsShown(pre, x, post, Trim(x));
    var shown := pre + ("Summary:\n" + Trim(x)) + post;
    NeutralizeKeepsVisible(shown);
    if HasNoToken(shown) {
      NoTokenIsNeutral(shown);
    }
  }

  /** A block that opens with a numbered section keeps all its text, stray tags and all. */
  lemma NumberedBlockIsKept(pre: string, inner: string, post: string)
    requires !Contains(pre, "<summary>") && !Contains(post, "</summary>") && OpensNumbered(Trim(inner))
    requires IsSettled(pre + "<summary>" + (inner + "</summary>" + post), TAGS)
    ensures Formatted(pre + "<summary>" + (inner + "</summary>" + post))
         == Trim(Squeeze(Neutralize(pre + ("Summary:\n" + Trim(inner)) + post)))
  {
    var text := Trim(inner);
    var k :| 0 <= k < |text| && IsDigit(text[k]) && AllMarkup(text[..k]);
    assert k > 0 ==> text[0] == text[..k][0];
    assert text[0] != '<';
    assert IsPeeled(text, text, TAGS.analysisClose);
    assert IsBody(inner, text, TAGS);
    BlockIsShown(pre, inner, post, text);
  }

  lemma {:induction false} TrimStartBefore(draft: string, tag: string)
    requires tag != [] && !IsSpace(tag[0])
    ensures TrimStart(draft + tag) == TrimStart(draft) + tag
  {
    TrimStartSplit(draft, tag);
    TrimStartIsSuffix(tag);
    assert [] + tag == tag;
  }

  lemma {:induction false} TrimEndBehind(front: string, x: string)
    requires front != [] && !IsSpace(front[|front| - 1])
    ensures TrimEnd(front + x) == front + TrimEnd(x)
  {
    TrimEndSplit(front, x);
    TrimEndIsPrefix(front);
    assert front + [] == front;
  }

  lemma {:induction false} TrimAround(draft: string, tag: string, x: string)
    requires tag != [] && !IsSpace(tag[0]) && !IsSpace(tag[|tag| - 1])
    ensures Trim(draft + tag + x) == TrimStart(draft) + tag + TrimEnd(x)
  {
    var front := TrimStart(draft) + tag;
    TrimStartBefore(draft, tag);
    TrimStartSplit(draft + tag, x);
    assert front[|front| - 1] == tag[|tag| - 1];
    TrimEndBehind(front, x);
  }

  /** Any other block loses its draft, up to the last stray `</analysis>`. */
  lemma DraftIsPeeled(pre: string, draft: string, x: string, post: string)
    requires !Contains(pre, "<summary>") && !Contains(post, "</summary>") && !Contains(x, "</analysis>")
    requires !("<summary>" <= Trim(x)) && !OpensNumbered(Trim(draft + "</analysis>" + x))
    requires IsSettled(pre + "<summary>" + (draft + "</analysis>" + x + "</summary>" + post), TAGS)
    ensures Formatted(pre + "<summary>" + (draft + "</analysis>" + x + "</summary>" + post))
         == Trim(Squeeze(Neutralize(pre + ("Summary:\n" + Trim(x)) + post)))
  {
    DraftBody(draft, x, TAGS);
    BlockIsShown(pre, draft + "</analysis>" + x, post, Trim(x));
  }

  lemma PeelsBehind(front: string, tag: string, rest: string)
    requires IsTag(tag) && !Contains(rest, tag) && !OpensNumbered(front + tag + rest)
    ensures IsPeeled(front + tag + rest, TrimStart(rest), tag)
  {
    var text := front + tag + rest;
    FindLastTag(front, tag, rest);
    assert text[|front| + |tag|..] == rest;
    assert IsLast(text, tag, |front|);
  }

  lemma DraftBody(draft: string, x: string, t: Tags)
    requires IsTag(t.analysisClose) && !IsSpace('<') && !IsSpace(t.analysisClose[|t.analysisClose| - 1])
    requires !Contains(x, t.analysisClose) && !(t.summaryOpen <= Trim(x))
    requires !OpensNumbered(Trim(draft + t.analysisClose + x))
    ensures IsBody(draft + t.analysisClose + x, Trim(x), t)
  {
    var tag := t.analysisClose;
    TrimAround(draft, tag, x);
    TrimEndIsPrefix(x);
    assert x[0..|TrimEnd(x)|] == TrimEnd(x);
    SliceContains(x, 0, |TrimEnd(x)|, tag);
    PeelsBehind(TrimStart(draft), tag, TrimEnd(x));
    TrimCommutes(x);
  }
}
