/** The compaction results, read with the program's own text functions. */
module ProgramTexts {
  import opened Text
  import opened Conversation
  import opened Compaction
  import UserQuery
  import CompactSummary

  const PREAMBLE := "This session is being continued from a previous conversation that ran out of context. The summary below covers the earlier portion of the conversation.\n\n"

  function FormatContent(rawSummary: string): string {
    PREAMBLE + CompactSummary.Formatted(rawSummary)
  }

  const TEXTS := Texts(
    text => UserQuery.ExtractUserQuery(text), text => UserQuery.WrapUserQuery(text),
    text => UserQuery.IsSyntheticQuery(text), text => FormatContent(text))

  /** What the program puts into the history as its summary: the continuation notice, then the cleaned
      summary, then the hint. */
  lemma ProgramSaysSummary(conversation: seq<Item>, input: Input, keepTail: bool)
    ensures var history := Compact(TEXTS, conversation, input, keepTail);
      var m := if input.reminder.Some? then 2 else 1;
      var hint := if input.transcriptHint.Some? then input.transcriptHint.value else [];
      && |history| >= m
      && SaysFor(history[|history| - m], CompactionMeta, PREAMBLE + CompactSummary.Formatted(input.summary) + hint)
  {
    CompactSaysAll(TEXTS, conversation, input, keepTail);
    var history := Compact(TEXTS, conversation, input, keepTail);
    var m := if input.reminder.Some? then 2 else 1;
    assert history[|history| - m..][0] == history[|history| - m];
  }

  lemma WrapCancels(p: string, q: string, m: UserQuery.Markup)
    requires UserQuery.Wrap(p, m) == UserQuery.Wrap(q, m)
    ensures p == q
  {
    Cancel(m.open + "\n", p, q, "\n" + m.close);
    assert UserQuery.Wrap(p, m) == (m.open + "\n" + p) + ("\n" + m.close);
    assert UserQuery.Wrap(q, m) == (m.open + "\n" + q) + ("\n" + m.close);
  }

  lemma ProgramWrapIsInjective()
    ensures WrapIsInjective(TEXTS)
  {
    forall p, q | TEXTS.wrap(p) == TEXTS.wrap(q) ensures p == q {
      WrapCancels(p, q, UserQuery.QUERY_MARKUP);
    }
  }

  /** For this program a query is stable exactly when it is trimmed, holds no closing query tag and
      no complete metadata block, and is not one of the synthetic texts. */
  lemma StableQueries(q: string)
    ensures IsStable(TEXTS, q) <==> UserQuery.Survives(q) && !UserQuery.IsSyntheticQuery(q)
  {
    UserQuery.WrapRoundTrip(q);
  }

  /** Compacting twice is compacting once, for every conversation whose last human query is stable. */
  lemma ProgramCompactTwice(conversation: seq<Item>, input: Input, keepTail: bool)
    requires input.system.System?
    ensures var once := Compact(TEXTS, conversation, input, keepTail);
      Compact(TEXTS, once, input, keepTail) == once <==>
        (var q := LastRealUserQuery(TEXTS, conversation);
         q.Some? ==> UserQuery.Survives(q.value) && !UserQuery.IsSyntheticQuery(q.value))
  {
    ProgramWrapIsInjective();
    CompactTwice(TEXTS, conversation, input, keepTail);
    var q := LastRealUserQuery(TEXTS, conversation);
    if q.Some? {
      StableQueries(q.value);
    }
  }

  lemma ProgramShrinks()
    ensures ExtractShrinks(TEXTS)
  {
    forall q ensures |TEXTS.extract(TEXTS.wrap(q))| <= |q|
      && (|TEXTS.extract(TEXTS.wrap(q))| == |q| ==> TEXTS.extract(TEXTS.wrap(q)) == q) {
      UserQuery.WrapShortens(q);
      UserQuery.WrapRoundTrip(q);
    }
  }

  /** Unstable queries die out: `|q| + 2` compactions reach a history that compaction leaves alone. */
  lemma ProgramCompactionConverges(conversation: seq<Item>, input: Input, keepTail: bool, n: nat)
    requires input.system.System? && n > QuerySize(LastRealUserQuery(TEXTS, conversation))
    ensures var last := Iterate(Compactor(TEXTS, input, keepTail), conversation, n);
      Compact(TEXTS, last, input, keepTail) == last
  {
    ProgramWrapIsInjective();
    ProgramShrinks();
    CompactionConverges(TEXTS, conversation, input, keepTail, n);
  }

  /** The failing family: an image-only prompt is a human turn with an empty query, which the
      compacted history no longer recognises as one. */
  lemma ImagePromptIsForgotten(url: string, input: Input, keepTail: bool)
    requires input.system.System?
    ensures var conversation := [User([Image(url)], None, NO_META)];
      var once := Compact(TEXTS, conversation, input, keepTail);
      LastRealUserQuery(TEXTS, conversation) == Some([]) && Compact(TEXTS, once, input, keepTail) != once
  {
    var item := User([Image(url)], None, NO_META);
    assert JoinedText(item.parts) == [];
    assert HasImage(item.parts) by { assert item.parts[0].Image?; }
    EmptyQuery();
    assert IsRealUserTurn(TEXTS, item);
    assert LastIndex(TEXTS, [item], Human) == Some(0);
    ProgramCompactTwice([item], input, keepTail);
  }

  lemma EmptyQuery()
    ensures UserQuery.ExtractUserQuery([]) == []
  {
    UserQuery.StripTagsFixed([], UserQuery.QUERY_MARKUP.blocks);
  }
}
