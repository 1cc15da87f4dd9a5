# A verified model of the agent front end's core

This Dafny project models the parts of a terminal front end for coding agents that carry real
invariants, and proves properties of them. `dafny verify dfyconfig.toml` checks everything.

| files | what they model |
|---|---|
| `Conversation`, `ToolPairs`, `HistoryRepair` | conversation items; the rule that every tool result follows its call directly; stripping, sanitizing, de-duplicating and back-filling |
| `CompactSummary`, `UserQuery`, `Compaction`, `ProgramTexts` | cleaning a summary; wrapping and extracting the user's query; building a compacted history, over any number of compactions |
| `Truncation`, `FitBudget` | cutting text to bytes; shrinking a conversation to a token budget |
| `JsonSize`, `ImageBudget`, `ProgramImages` | measuring a serialized body without scanning images; evicting images oldest first |
| `ScreenWait`, `Multiplexer`, `LineReader` | three concurrent protocols: waiting on a screen condition, request/response multiplexing, line-buffered reading |
| `Interner`, `OutputTail`, `EventCoalescing`, `UsageLedger`, `UnifiedDiff` | an arena string interner; a bounded UTF-8 output tail; file-event coalescing; a saturating ledger; a unified-diff parser |
| `Text`, `Utf8`, `Lines` | the string operations the rest is written in; UTF-8 (section 3 of RFC 3629); line splitting |

Loops and in-place updates are methods and classes proved against specification functions; the
properties are lemmas about those functions. Concurrent protocols are step machines: a run is any
sequence of enabled steps, and results hold for every run. Foreign parts are parameters: item cost
(`Sizer`), prompt texts and tags (`Texts`, `Tags`, `Markup`), JSON fields no pass touches (`Layout`), the hash
function, the disk (`World`), the screen condition. Literal texts are instantiated in `ProgramTexts`
and `ProgramImages`.

Where the code and its documentation disagree, the model follows the code:

- `repair_history` is documented as idempotent. It is not when an assistant item leaves one call id
  unanswered twice; `RepairIdempotentIff` gives the exact condition.
- `truncate_text_to_bytes` is documented to stay within its limit, marker included; `TruncatedFits`
  gives the exact condition.
- A wait that ended is documented as "could never have been met"; a resize after the feeder's exit
  can still meet the condition (`LateResizeIsMissed`); `EndedIff` gives the exact condition.
- The size error of `read_line_capped` quotes the bytes read so far as if they were the message's size.
  When it occurs depends on line lengths only, but the quoted count depends on chunking unless the
  line is exactly one byte too long (`CountIsFixedIff`).
- Create-then-remove is documented to cancel; for a path indexed before the batch it leaves a stale
  entry (`BatchAgreesIff`).
- A request registered after the closing drain is never closed (`LateRequestHangs`).

## Model

| member | source | states |
|---|---|---|
| `ToolPairs.PairedByScan` | crates/codegen/xai-chat-state/src/compaction_utils.rs:1030-1056 | the one-pass scan decides the positional invariant: every tool result is separated from an assistant declaring its id by tool results only |
| `ToolPairs.StripDisplacedToolResults` | crates/codegen/xai-chat-state/src/compaction_utils.rs:1030-1056 | the loop over a mutable id set computes the stripped list and the stripped ids, in order |
| `ToolPairs.StripKeepsExactlyOwned` | crates/codegen/xai-chat-state/src/compaction_utils.rs:1030-1056 | a tool result is kept exactly when, in the original list, only tool results lie between it and an assistant declaring its id; all other items stay, order is kept, and the stripped ids are those of exactly the other results, in order |
| `ToolPairs.StripEstablishesPairing` | crates/codegen/xai-chat-state/src/compaction_utils.rs:1030-1056 | stripping yields a paired list, is the identity exactly on paired lists, is idempotent, and its result passes validation |
| `ToolPairs.ValidateCompactedHistory` | crates/codegen/xai-chat-state/src/compaction_utils.rs:941-958 | reports, in order, the ids of exactly the tool results whose id no earlier item of the list declares |
| `ToolPairs.SanitizeCompactedHistory` | crates/codegen/xai-chat-state/src/compaction_utils.rs:962-989 | strips exactly the results whose ids validation reports, in order |
| `ToolPairs.OrphansAreUndeclared` | crates/codegen/xai-chat-state/src/compaction_utils.rs:941-989 | what is reported and what is kept, read off positions in the original list: a result is an orphan exactly when no earlier item declares its id |
| `ToolPairs.SanitizedIsValid` | crates/codegen/xai-chat-state/src/compaction_utils.rs:941-989 | after sanitizing nothing is reported; nothing is stripped exactly when nothing is reported; kept plus stripped is everything |
| `ToolPairs.PairedValidates` | crates/codegen/xai-chat-state/src/compaction_utils.rs:941-989 | on a paired history validation reports nothing and sanitizing strips nothing |
| `HistoryRepair.DedupDuplicateToolResults` | crates/codegen/xai-grok-sampling-types/src/conversation.rs:1992-2047 | the in-place loop computes the deduplicated list and counts what it removed |
| `HistoryRepair.DedupKeepsLatest` | crates/codegen/xai-grok-sampling-types/src/conversation.rs:1992-2047 | read off positions in the original list: a result in the run behind an assistant with calls is dropped exactly when a later result of that run has its id; every other item is kept, unchanged and in order |
| `HistoryRepair.RepairDanglingToolCalls` | crates/codegen/xai-grok-sampling-types/src/conversation.rs:1882-1942 | the two-phase loop inserts one synthetic result per unanswered call behind the run and counts them |
| `HistoryRepair.RepairHistory` | crates/codegen/xai-chat-state/src/compaction_utils.rs:1012-1026 | dedup, strip and backfill in order, with a report that balances: output + removed + stripped = input + inserted |
| `HistoryRepair.RepairIsByBlock` | crates/codegen/xai-chat-state/src/compaction_utils.rs:1012-1026 | the three list-wide passes together equal a block-by-block reference, for every list |
| `HistoryRepair.RepairIsByPosition` | crates/codegen/xai-chat-state/src/compaction_utils.rs:1012-1026 | the whole repair from the input alone: behind each item come the results of its run that answer a declared call and are the last of their id, then for each unanswered call, in order, a halted result naming its tool; nothing else is added |
| `HistoryRepair.RepairIdempotentIff` | crates/codegen/xai-chat-state/src/compaction_utils.rs:1012-1026 | repair is idempotent exactly when no assistant leaves the same call id unanswered twice (the documented unconditional idempotence is false) |
| `HistoryRepair.RepairIsNotIdempotent` | crates/codegen/xai-chat-state/src/compaction_utils.rs:1012-1026 | a concrete history on which repairing twice differs from repairing once |
| `HistoryRepair.RepairConverges` | crates/codegen/xai-chat-state/src/compaction_utils.rs:1012-1026 | a second repair is always a fixed point |
| `HistoryRepair.RepairedIsValid` | crates/codegen/xai-chat-state/src/compaction_utils.rs:1012-1026 | after repair the history is paired, every call is answered, once if none dangles twice, and no other item is lost, moved or added |
| `CompactSummary.NeutralizeKeepsVisible` | crates/codegen/xai-chat-state/src/compaction_utils.rs:745-752 | defusing control tokens only inserts invisible characters: the visible text is unchanged |
| `CompactSummary.NeutralizeIsOnePass` | crates/codegen/xai-chat-state/src/compaction_utils.rs:745-752 | the six replacements in order equal one pass that puts a zero-width space behind the `<` of every control token standing in the text |
| `CompactSummary.FormatCompactSummary` | crates/codegen/xai-chat-state/src/compaction_utils.rs:687-725 | the nested loops end on every input and compute the declarative clean-up |
| `CompactSummary.ReplaceRoundKeepsSqueeze` | crates/codegen/xai-chat-state/src/compaction_utils.rs:721-723 | one round of replacing triple newlines leaves the squeezed text unchanged, so the loop computes the squeeze |
| `CompactSummary.FormattedIsClean` | crates/codegen/xai-chat-state/src/compaction_utils.rs:687-752 | for every raw summary: none of the six control tokens, no triple newline, no surrounding whitespace |
| `CompactSummary.CleanIsFixed` | crates/codegen/xai-chat-state/src/compaction_utils.rs:687-752 | a clean text is left as it is |
| `CompactSummary.FormatIdempotent` | crates/codegen/xai-chat-state/src/compaction_utils.rs:687-752 | formatting twice is formatting once, and the fixed points are exactly the clean texts |
| `CompactSummary.SummaryIsShown` | crates/codegen/xai-chat-state/src/compaction_utils.rs:711-725 | a summary block comes out as a plain section with its trimmed text whole, between what stood before and behind it, squeezed and trimmed; defusing changes it only where a token formed across a seam |
| `CompactSummary.AnalysisIsDropped` | crates/codegen/xai-chat-state/src/compaction_utils.rs:689-710 | a closed analysis that leads the text or its summary block leaves no trace: the text cleans to the same as without it |
| `CompactSummary.LeadingAnalysisVanishes` | crates/codegen/xai-chat-state/src/compaction_utils.rs:689-710 | in particular in front of everything and at the very start of the summary block, white space aside |
| `CompactSummary.UnfinishedIsCut` | crates/codegen/xai-chat-state/src/compaction_utils.rs:689-710 | a leading analysis that is never closed is cut up to the summary, or to the end when there is none, and the rest is rendered without another look for analysis |
| `CompactSummary.SettledIsRendered` | crates/codegen/xai-chat-state/src/compaction_utils.rs:711-725 | a text no analysis leads is rendered (block into section, or unchanged), defused, squeezed and trimmed |
| `CompactSummary.EveryTextIsCovered` | crates/codegen/xai-chat-state/src/compaction_utils.rs:687-725 | these laws cover every text: it is settled, or opens with a closed or an unfinished leading analysis |
| `CompactSummary.EveryTextRenders` | crates/codegen/xai-chat-state/src/compaction_utils.rs:711-719 | every text renders to something, so the laws above give a value for every text |
| `CompactSummary.TextWithoutBlockIsKept` | crates/codegen/xai-chat-state/src/compaction_utils.rs:687-725 | without a complete summary block and a leading analysis, every visible character is kept up to squeezed line breaks and outer white space |
| `CompactSummary.LateAnalysisIsKept` | crates/codegen/xai-chat-state/src/compaction_utils.rs:690-696 | an analysis behind visible text is kept, defused |
| `CompactSummary.NumberedBlockIsKept` | crates/codegen/xai-chat-state/src/compaction_utils.rs:729-742 | a block that opens with a digit behind its markup keeps all its text, stray closing analysis tags included |
| `CompactSummary.DraftIsPeeled` | crates/codegen/xai-chat-state/src/compaction_utils.rs:729-742 | any other block loses everything up to its last stray closing analysis tag |
| `UserQuery.StripSystemTags` | crates/codegen/xai-chat-state/src/compaction_utils.rs:275-291 | the nested loops remove every complete metadata block, tag by tag, and trim |
| `UserQuery.BlockIsRemoved` | crates/codegen/xai-chat-state/src/compaction_utils.rs:275-291 | the first complete block of a tag vanishes, and what it stood between closes up, for any text around it |
| `UserQuery.ExtractOfWrap` | crates/codegen/xai-chat-state/src/compaction_utils.rs:293-305 | extracting a wrapped query yields its text up to the first closing tag, metadata removed, trimmed |
| `UserQuery.ExtractsAll` | crates/codegen/xai-chat-state/src/compaction_utils.rs:293-304 | a text in which no opening query tag is followed by a closing one is taken whole, but for its metadata blocks and outer white space |
| `UserQuery.ExtractsFirstQuery` | crates/codegen/xai-chat-state/src/compaction_utils.rs:293-304 | in any other text the first query is taken, up to its first closing tag, trimmed, wherever it stands |
| `UserQuery.WrapRoundTrip` | crates/codegen/xai-chat-state/src/compaction_utils.rs:822-825 | wrap-then-extract returns the query exactly when it is trimmed and holds neither the closing tag nor a complete metadata block |
| `UserQuery.WrapShortens` | crates/codegen/xai-chat-state/src/compaction_utils.rs:293-305 | wrap-then-extract never lengthens a query, and shortens exactly those that do not survive |
| `Compaction.ScanFindsAnchors` | crates/codegen/xai-chat-state/src/compaction_utils.rs:367-450 | the backward searches for the last human query and the latest agent message agree with one forward scan, including which came first |
| `Compaction.TailShape` | crates/codegen/xai-chat-state/src/compaction_utils.rs:451-494 | the retained tail opens with the agent message exactly when that came after the last human turn, and has no other user item |
| `Compaction.TailIsPaired` | crates/codegen/xai-chat-state/src/compaction_utils.rs:451-494 | the retained tail of a paired conversation is paired |
| `Compaction.RetainIsItemwise` | crates/codegen/xai-chat-state/src/compaction_utils.rs:451-494 | the tail item by item: agent messages and assistants as they are, tool results by id alone with the placeholder text, nothing else |
| `Conversation.JoinedTextConcat` | crates/codegen/xai-grok-sampling-types/src/conversation.rs:1268-1285 | the text of a user item is its text parts joined by line breaks, in order, images left out |
| `Compaction.BuildCompactedHistory` | crates/codegen/xai-chat-state/src/compaction_utils.rs:863-930 | the pushes compute the compacted history |
| `Compaction.CompactSaysAll` | crates/codegen/xai-chat-state/src/compaction_utils.rs:863-930 | for every conversation, input and mode: first the system item, the prefix and, exactly when given for the generation, the project instructions; last the summary text with its hint and, exactly when given, the reminder; no other meta item in between |
| `Compaction.CompactIsPaired` | crates/codegen/xai-chat-state/src/compaction_utils.rs:863-930 | the compacted history of a paired conversation is paired, so validation reports nothing and sanitizing strips nothing |
| `Compaction.CompactRewritesView` | crates/codegen/xai-chat-state/src/compaction_utils.rs:629-682 | one compaction keeps agent message and order and passes the query through wrap and extract, for every conversation, input and mode |
| `Compaction.DroppedTailHasNoAnchor` | crates/codegen/xai-chat-state/src/compaction_utils.rs:663-682 | the fallback search made when the tail is dropped finds nothing the first search missed |
| `Compaction.CompactHasOneAgentMessage` | crates/codegen/xai-chat-state/src/compaction_utils.rs:433-450 | a compacted history holds the latest agent message if there is one, unchanged, and no other agent message |
| `Compaction.RunKeepsAgentMessage` | crates/codegen/xai-chat-state/src/compaction_utils.rs:433-450 | over any sequence of appends and compactions the latest agent message is that of the uncompacted transcript |
| `Compaction.RunKeepsView` | crates/codegen/xai-chat-state/src/compaction_utils.rs:629-682 | over any such sequence with stable queries, message, query and their order are those of the transcript |
| `Compaction.CompactionsAreTransparent` | crates/codegen/xai-chat-state/src/compaction_utils.rs:367-450 | so the next compaction's searches find what they would find in the transcript |
| `Compaction.RunKeepsPairing` | crates/codegen/xai-chat-state/src/compaction_utils.rs:863-930 | pairing survives any number of compactions |
| `Compaction.CompactTwice` | crates/codegen/xai-chat-state/src/compaction_utils.rs:863-930 | compacting again with the same input, with or without the tail, returns the same history exactly when there is no human query or it is non-synthetic and survives wrap-then-extract |
| `Compaction.CompactionConverges` | crates/codegen/xai-chat-state/src/compaction_utils.rs:863-930 | whatever the query, repeated compaction reaches a fixed point, after two compactions more than the query has characters at the latest |
| `ProgramTexts.StableQueries` | crates/codegen/xai-chat-state/src/compaction_utils.rs:327-334 | which queries are stable, for the program's own tags and synthetic texts |
| `ProgramTexts.ProgramCompactTwice` | crates/codegen/xai-chat-state/src/compaction_utils.rs:863-930 | the same law for the program's texts, with the condition spelled out |
| `ProgramTexts.ProgramCompactionConverges` | crates/codegen/xai-chat-state/src/compaction_utils.rs:863-930 | the same convergence for the program's texts, without any condition on the query |
| `ProgramTexts.ProgramSaysSummary` | crates/codegen/xai-chat-state/src/compaction_utils.rs:756-762 | with the program's texts, the item before the reminder, or the last one, is the continuation notice, the cleaned summary and the hint, for every conversation, input and mode |
| `ProgramTexts.ImagePromptIsForgotten` | crates/codegen/xai-chat-state/src/compaction_utils.rs:367-375 | an image-only prompt is a failing input: compacting twice differs from once |
| `Truncation.TruncateTextToBytes` | crates/codegen/xai-chat-state/src/compaction_utils.rs:242-257 | the byte loop steps back to a character boundary and appends the marker with the dropped byte count |
| `Truncation.TruncatedIs` | crates/codegen/xai-chat-state/src/compaction_utils.rs:242-257 | a text within the limit stays; any other becomes its longest prefix of whole characters that leaves room for the marker, and the marker with the number of bytes dropped |
| `Truncation.TruncatedFits` | crates/codegen/xai-chat-state/src/compaction_utils.rs:242-257 | the result is within the limit exactly when the marker's digits fit: never below 57 bytes, always from 64 bytes on for texts under 10^8 bytes (the documented bound is false in general) |
| `Truncation.TruncationKeepsStructure` | crates/codegen/xai-chat-state/src/compaction_utils.rs:213-240 | truncating an item changes text only: kind, ids, calls, parts and images stay |
| `Truncation.TruncationCutsText` | crates/codegen/xai-chat-state/src/compaction_utils.rs:213-240 | every text of an item is cut to four bytes a token, or kept when it is within that |
| `FitBudget.FindAffordableStart` | crates/codegen/xai-chat-state/src/compaction_utils.rs:157-167 | the backward loop finds the start of the longest affordable suffix |
| `FitBudget.AffordableStartIsLongest` | crates/codegen/xai-chat-state/src/compaction_utils.rs:157-167 | that suffix fits the budget and every longer one does not |
| `FitBudget.RecoverTruncatedTailUnit` | crates/codegen/xai-chat-state/src/compaction_utils.rs:179-211 | the method computes the truncated tail unit |
| `FitBudget.TailUnitIs` | crates/codegen/xai-chat-state/src/compaction_utils.rs:179-211 | the unit is the owner, if it declares calls, and every trailing result cut to one common share: what the owner leaves, divided evenly and rounded down, and one token when that is nothing |
| `FitBudget.LoneUnitIs` | crates/codegen/xai-chat-state/src/compaction_utils.rs:179-211 | without trailing results the unit is the last item cut to exactly the budget |
| `FitBudget.FitConversationToBudget` | crates/codegen/xai-chat-state/src/compaction_utils.rs:144-177 | whole-turn path, or the truncated tail unit when no whole turn fits |
| `FitBudget.FitKeepsSystem` | crates/codegen/xai-chat-state/src/compaction_utils.rs:144-177 | a leading system item stays in front, unchanged |
| `FitBudget.TotalIsSum` | crates/codegen/xai-chat-state/src/compaction_utils.rs:144-150 | the total is the sum of the costs of the items |
| `FitBudget.ProgramCutsTextOnly` | crates/codegen/xai-chat-state/src/compaction_utils.rs:213-240 | the program's item truncation meets what the fitting results assume of a sizer, for any item cost |
| `FitBudget.FitKeepsPairing` | crates/codegen/xai-chat-state/src/compaction_utils.rs:144-211 | fitting keeps pairing on both paths |
| `FitBudget.FitKeepsLast` | crates/codegen/xai-chat-state/src/compaction_utils.rs:144-211 | the last item is always kept: as it is whenever a whole turn fits, otherwise as itself cut to some number of tokens |
| `FitBudget.FitWholeTurns` | crates/codegen/xai-chat-state/src/compaction_utils.rs:144-177 | on the whole-turn path: system item plus longest affordable suffix minus its leading tool results; within budget exactly when the system item is |
| `FitBudget.TailUnitTotal` | crates/codegen/xai-chat-state/src/compaction_utils.rs:179-211 | the recovered unit is within its budget if every result can have a token beside the owner, and for a sizer that cuts exactly only then |
| `FitBudget.FitTotal` | crates/codegen/xai-chat-state/src/compaction_utils.rs:144-211 | for a sizer whose cuts cost at most what they are cut to: above budget only through the system item, or through a trailing run of results that leaves less than a token for each beside its owner |
| `JsonSize.EscapeLength` | crates/codegen/xai-chat-state/src/image_budget.rs:53-62 | JSON escaping (section 7 of RFC 8259) never shortens, and keeps the length exactly of text that needs no escape |
| `JsonSize.EscapeRoundTrip` | crates/codegen/xai-chat-state/src/image_budget.rs:53-62 | what escaping writes reads back, by the rules of section 7 of RFC 8259, as the same text |
| `JsonSize.EscapedCharBytes` | crates/codegen/xai-chat-state/src/image_budget.rs:53-62 | each character takes two bytes when it has an escape of its own, six when it is another control character, else its own length |
| `JsonSize.Base64TailIff` | crates/codegen/xai-chat-state/src/image_budget.rs:152-161 | a tail is found behind the first comma exactly when what precedes it opens with `data:` and closes with `;base64` |
| `JsonSize.UrlMeasure` | crates/codegen/xai-chat-state/src/image_budget.rs:152-161 | the fast URL measure never overstates, and is exact precisely when the base64 tail needs no escaping |
| `JsonSize.BlankAndAddBack` | crates/codegen/xai-chat-state/src/image_budget.rs:175-202 | blanking every URL and adding back its measure loses nothing |
| `JsonSize.ConversationBodyBytes` | crates/codegen/xai-chat-state/src/image_budget.rs:175-193 | the loops over items and parts compute the measured body size |
| `JsonSize.FastMeasureIsExact` | crates/codegen/xai-chat-state/src/image_budget.rs:172-202 | the fast measure is at most the serialized length, and equal exactly when every base64 data-URL tail is plain |
| `ImageBudget.Discover` | crates/codegen/xai-chat-state/src/image_budget.rs:221-249 | the images of a history with position and size, oldest first |
| `ImageBudget.FirstTarget` | crates/codegen/xai-chat-state/src/image_budget.rs:221-260 | the first listed position is that of the oldest image still there |
| `ImageBudget.OtherTargets` | crates/codegen/xai-chat-state/src/image_budget.rs:221-287 | evicting an image leaves the rest of the list of positions right, so a list made once stays valid |
| `ImageBudget.EvictImagesToBudget` | crates/codegen/xai-chat-state/src/image_budget.rs:210-287 | the in-place loop, with its saturating estimate, computes the reference eviction and its count |
| `ImageBudget.EvictionBalances` | crates/codegen/xai-chat-state/src/image_budget.rs:251-287 | exact account of the whole run: the estimate misses only placeholders that outgrow their images and image lists that disappear |
| `ImageBudget.EvictionIsOldestFirst` | crates/codegen/xai-chat-state/src/image_budget.rs:251-287 | the URLs left are the original ones with exactly the first `evicted` dropped; the loop stops only at the target or without images |
| `ImageBudget.EvictionIsConservative` | crates/codegen/xai-chat-state/src/image_budget.rs:251-287 | order, kinds, ids, metadata and non-image parts are unchanged; a tool result that lost an image carries the note, added at most once |
| `ImageBudget.EvictionReclaimsEnough` | crates/codegen/xai-chat-state/src/image_budget.rs:123-150 | true size plus unseen gain equals estimate plus shortfall, so the estimate bounds the body exactly when the shortfall is at most the gain; in particular, if no user image is shorter than the placeholder the body ends at the target or without images |
| `ImageBudget.ReachesTargetIff` | crates/codegen/xai-chat-state/src/image_budget.rs:123-150 | every target: the body ends at it or without images exactly when, at each round that brings the estimate to a new low, vanished image lists have saved at least what placeholders outgrew |
| `ImageBudget.ReachesThisTargetIff` | crates/codegen/xai-chat-state/src/image_budget.rs:123-150 | one target: the body ends at it or without images exactly when the shortfall by the first round at the target fits the room the estimate left |
| `ImageBudget.BudgetFixedPoint` | crates/codegen/xai-chat-state/src/image_budget.rs:123-150 | the budget leaves a history alone exactly when it is below the trigger, at the target or without images |
| `ImageBudget.BudgetIsIdempotent` | crates/codegen/xai-chat-state/src/image_budget.rs:123-150 | applying the budget again changes nothing, if no user image is short or the target was reached |
| `ImageBudget.ShortfallIsUnseen` | crates/codegen/xai-chat-state/src/image_budget.rs:251-287 | a short image before a long one: the loop stops above the target by exactly the shortfall |
| `ImageBudget.ShortImageMissesTarget` | crates/codegen/xai-chat-state/src/image_budget.rs:251-287 | so short images can leave the body above the target with images left |
| `ImageBudget.ApplyImageBudgetWithLimits` | crates/codegen/xai-chat-state/src/image_budget.rs:123-150 | the reported figures are the measured sizes of both histories, and images before = images after + evicted |
| `ImageBudget.InlineImageCount` | crates/codegen/xai-chat-state/src/image_budget.rs:64-85 | counts exactly the image URLs |
| `ProgramImages.ProgramBudget` | crates/codegen/xai-chat-state/src/image_budget.rs:16-34 | with the shipped texts, layout and limits: under 47 MiB untouched; otherwise, if no user image serializes shorter than the placeholder, at most 25 MiB or without images, and stable |
| `ProgramImages.ProgramMissesTarget` | crates/codegen/xai-chat-state/src/image_budget.rs:251-287 | that condition is needed: at the shipped limits, texts and layout, an empty URL, a long one and a third leave a body of at least 47 MiB above 25 MiB with the third image left |
| `ScreenWait.StepKeepsInv` | crates/codegen/ptyctl/src/session.rs:159-173 | every step of feeder, resize and waiter keeps: each update is announced, silent or in flight; a waiter with nothing unseen has checked every announced update |
| `ScreenWait.RunKeepsInv` | crates/codegen/ptyctl/src/wait.rs:90-122 | so does every interleaving |
| `ScreenWait.NoWakeupIsLost` | crates/codegen/ptyctl/src/wait.rs:90-122 | a parked waiter with no unseen generation has checked a grid with every announced update, and that grid fails the condition |
| `ScreenWait.ParkedWaiterFindsIt` | crates/codegen/ptyctl/src/wait.rs:90-122 | if the condition holds once feeder and resize are idle, a parked waiter can wake and its next check matches |
| `ScreenWait.EndedMeansFinal` | crates/codegen/ptyctl/src/wait.rs:110-118 | an ended wait missed nothing but resizes that found no sender; without one its reported screen is final and fails the condition |
| `ScreenWait.EndedStaysFinal` | crates/codegen/ptyctl/src/wait.rs:110-118 | after the sender is gone only resizes ever change the grid |
| `ScreenWait.EndedIff` | crates/codegen/ptyctl/src/wait.rs:110-118 | what ended promises holds exactly of the runs that apply no update after their last check; the only updates that can break it are resizes that found no sender |
| `ScreenWait.EndedMeansNeverMet` | crates/codegen/ptyctl/src/wait.rs:110-118 | in particular in runs where no resize races or follows the loss of the sender, ended means that the final grid fails the condition |
| `ScreenWait.LateResizeIsMissed` | crates/codegen/ptyctl/src/session.rs:273-284 | a resize after the feeder's exit: the wait ends unmatched though the final grid meets the condition |
| `ScreenWait.LastBytesOfPush` | crates/codegen/ptyctl/src/wait.rs:195-206 | dropping old bytes early loses nothing a later tail would hold |
| `ScreenWait.RawTail.Push` | crates/codegen/ptyctl/src/wait.rs:195-206 | over any pushes the tail is the last 2048 bytes of everything pushed |
| `Multiplexer.StepKeepsInv` | crates/bot-provider-codex/src/transport.rs:516-562 | every step keeps map, channels and callers consistent |
| `Multiplexer.RegisterOverwritesNothing` | crates/bot-provider-codex/src/transport.rs:400-413 | no map entry is ever overwritten |
| `Multiplexer.RunFollowsFate` | crates/bot-provider-codex/src/transport.rs:516-562 | in every run the shared map gives each request the fate it would have alone: the first response to its id, withdrawal or drain decides |
| `Multiplexer.MultiplexingIsSafe` | crates/bot-provider-codex/src/transport.rs:400-422 | ids are distinct; a channel gets at most one message, a response to its own id or the close error; each registered request is exactly one of pending, answered, closed, withdrawn |
| `Multiplexer.NoCallerIsAbandoned` | crates/bot-provider-codex/src/transport.rs:414-418 | a waiting caller has an entry or a message, never neither |
| `Multiplexer.DrainDecidesAll` | crates/bot-provider-codex/src/transport.rs:534-537 | the closing drain empties the map and closes exactly what was pending |
| `Multiplexer.DecidedStays` | crates/bot-provider-codex/src/transport.rs:516-562 | a decided request never changes again |
| `Multiplexer.RegisteredTooLate` | crates/bot-provider-codex/src/transport.rs:534-537 | after the reader stopped, a new request is never answered or closed; only a failed write removes it |
| `Multiplexer.PendingAfterStopIff` | crates/bot-provider-codex/src/transport.rs:534-537 | once the reader has stopped, a request is pending exactly when it registered behind the drain and did not withdraw |
| `Multiplexer.LateRequestHangs` | crates/bot-provider-codex/src/transport.rs:400-418 | such a request is reachable: allocated before the failure, registered after the drain, it stays pending in every continuation without a failed write of its own |
| `Multiplexer.IdsRunOut` | crates/bot-provider-codex/src/transport.rs:484-491 | ids run out at the largest 64-bit value instead of wrapping |
| `LineReader.ReadLineCapped` | crates/codegen/xai-acp-lib/src/line_reader.rs:126-163 | for every chunking, one call reads exactly the next line, or reports the size error with the bytes it has read, or the source error |
| `LineReader.SizeErrorIff` | crates/codegen/xai-acp-lib/src/line_reader.rs:126-163 | the size error occurs exactly when some line is longer than the cap: chunking plays no part |
| `LineReader.CountIsWithinLine` | crates/codegen/xai-acp-lib/src/line_reader.rs:148-156 | however an over-long line arrives, the quoted count is above the cap and at most the line's length |
| `LineReader.CountIsFixedIff` | crates/codegen/xai-acp-lib/src/line_reader.rs:148-156 | the byte count a size error quotes is the same for every chunking exactly when the line is one byte too long |
| `LineReader.MessagesArePrefix` | crates/codegen/xai-acp-lib/src/line_reader.rs:57-74 | queued lines carry a prefix of the source, all of it unless an error cuts it |
| `LineReader.TakenEndsLine` | crates/codegen/xai-acp-lib/src/line_reader.rs:57-74 | any initial part of the queued lines ends after a newline or is the whole source |
| `LineReader.AllArrives` | crates/codegen/xai-acp-lib/src/line_reader.rs:57-74 | with a sound source, everything is queued exactly when no line is too long |
| `LineReader.LineBufferedRead.Produce` | crates/codegen/xai-acp-lib/src/line_reader.rs:57-74 | a round of the producer keeps the account of what is delivered, buffered, queued and still to come |
| `LineReader.LineBufferedRead.PollRead` | crates/codegen/xai-acp-lib/src/line_reader.rs:85-121 | delivered bytes are a prefix of the source; a pause comes only between lines or after everything; the end only after all lines before an error |
| `LineReader.Drive` | crates/codegen/xai-acp-lib/src/line_reader.rs:51-121 | the same for any interleaving of producer and reads of any sizes over any chunking; at the end of a sound source without over-long line the output is the source |
| `Interner.LookupIsTable` | crates/codegen/xai-codebase-graph/src/interner.rs:143-155 | for any hash function, lookup finds an id exactly when that id stands for the string |
| `Interner.InternIsTable` | crates/codegen/xai-codebase-graph/src/interner.rs:108-133 | interning refines an injective table: known strings keep their id, new ones are appended, old ids keep their bytes |
| `Interner.RoundTripIff` | crates/codegen/xai-codebase-graph/src/interner.rs:108-167 | reading back, and interning again to the same id, work exactly for strings under 2^16 bytes, whatever the store already holds |
| `Interner.LongIsNeverFound` | crates/codegen/xai-codebase-graph/src/interner.rs:143-155 | a longer string is never found again |
| `Interner.AppendReadsBack` | crates/codegen/xai-codebase-graph/src/interner.rs:120-133 | a new entry reads back as the string cut to its length modulo 2^16 |
| `Interner.RunIsTable` | crates/codegen/xai-codebase-graph/src/interner.rs:108-133 | after any run within the limits the table lists the strings by first appearance and the arena holds each once |
| `Interner.RunKeepsShort` | crates/codegen/xai-codebase-graph/src/interner.rs:108-167 | after any run, long strings included, every short string of the run is found and reads back, and no long one is found |
| `Interner.RebuiltFindsLeast` | crates/codegen/xai-codebase-graph/src/interner.rs:261-278 | for any parts at all, a rebuilt interner finds the least id standing for a string |
| `Interner.RebuiltAgrees` | crates/codegen/xai-codebase-graph/src/interner.rs:261-278 | rebuilt from a good interner's parts, it answers every lookup identically and is good |
| `Interner.StringInterner.InternBytes` | crates/codegen/xai-codebase-graph/src/interner.rs:108-133 | the method, with its narrowing casts, is the modelled function of arena, lookup and offsets |
| `Interner.StringInterner.FindId` | crates/codegen/xai-codebase-graph/src/interner.rs:143-155 | the loop over a bucket returns its first match |
| `Interner.StringInterner.FromParts` | crates/codegen/xai-codebase-graph/src/interner.rs:261-278 | the rebuilt table holds, per hash, the in-range ids in order |
| `Interner.StringInterner.Clear` | crates/codegen/xai-codebase-graph/src/interner.rs:234-238 | everything is forgotten |
| `OutputTail.TailIsLongest` | crates/bot-provider-codex/src/normalize.rs:821-832 | the tail is the longest suffix of whole characters within the limit |
| `OutputTail.TailOfTail` | crates/bot-provider-codex/src/normalize.rs:821-832 | the tail of a tail and more text is the tail of all the text |
| `OutputTail.IncrementalIsOneShot` | crates/bot-provider-codex/src/normalize.rs:821-832 | after any deltas the incremental tail equals the one-shot tail |
| `OutputTail.AppendTail` | crates/bot-provider-codex/src/normalize.rs:821-832 | the byte loop cuts at the first character boundary, which is where the tail starts |
| `OutputTail.Normalizer.ToolChanged` | crates/bot-provider-codex/src/normalize.rs:235-254 | a stated output replaces the old one, a missing one keeps it |
| `OutputTail.Normalizer.ToolOutput` | crates/bot-provider-codex/src/normalize.rs:277-290 | a call's output is the tail of everything said to it; other calls and unknown ids are untouched; a missing or blank turn id only suppresses the event |
| `OutputTail.Normalizer.TerminalInteraction` | crates/bot-provider-codex/src/normalize.rs:305-321 | the same for echoed terminal input |
| `OutputTail.EchoIs` | crates/bot-provider-codex/src/normalize.rs:305-321 | every line of the input comes back behind a prompt with a plain line ending, whichever ending it had; a last line without one gets one |
| `OutputTail.ItemEventHasId` | crates/bot-core/src/id.rs:17-23 | the event id of an item is never blank, so building it never suppresses an event |
| `OutputTail.IdIff` | crates/bot-core/src/id.rs:17-23 | a text is an id, kept as it is, exactly when it holds a visible character |
| `EventCoalescing.CoalesceAt` | crates/codegen/xai-codebase-graph/src/index_manager.rs:1462-1498 | the pending map tracks each path by itself |
| `EventCoalescing.MergeAllIs` | crates/codegen/xai-codebase-graph/src/index_manager.rs:1476-1498 | what a path's changes merge to, exactly: nothing when a removal follows a create or modify, a creation when a modify follows a removal that still stood, else the last change |
| `EventCoalescing.HistoryIs` | crates/codegen/xai-codebase-graph/src/index_manager.rs:1460-1474 | for every path, the changes of any events are what the events say about it: a rename removes where it moves from and creates where it moves to, any other event says its kind once per mention |
| `EventCoalescing.CoalescedEvents.Add` | crates/codegen/xai-codebase-graph/src/index_manager.rs:1462-1474 | an event is the sequence of its per-path changes; a rename removes its first path and creates its second |
| `EventCoalescing.IndexManager.ApplyCoalesced` | crates/codegen/xai-codebase-graph/src/index_manager.rs:1087-1115 | in whatever order the map yields them, each pending change decides its own path, and the counter grows by the number of indexable ones |
| `EventCoalescing.OneAtATimeAt` | crates/codegen/xai-codebase-graph/src/index_manager.rs:1087-1115 | one at a time, the last change of a path decides |
| `EventCoalescing.BatchAgreesIff` | crates/codegen/xai-codebase-graph/src/index_manager.rs:1087-1115 | batch and one-at-a-time agree at a path exactly unless its changes end cancelled and it was indexed before; there the batch leaves the old entry |
| `EventCoalescing.ApplyBatch` | crates/codegen/xai-codebase-graph/src/index_manager.rs:1460-1498 | for whole event sequences, renames and multi-path events included, every path ends as its history says, and as one-at-a-time application leaves it exactly unless its last two changes cancel |
| `EventCoalescing.RenameMoves` | crates/codegen/xai-codebase-graph/src/index_manager.rs:1460-1474 | after a batch that ends with a rename the new path holds what is on disk, and the old one is gone unless the batch had just created or modified it |
| `UsageLedger.FoldAddsEachCounter` | crates/codegen/xai-chat-state/src/usage.rs:73-96 | each unsigned field is the saturating sum of that same field |
| `UsageLedger.FoldModelIsUpdate` | crates/codegen/xai-chat-state/src/usage.rs:146-152 | a fold touches one model's totals, adding the model if new |
| `UsageLedger.RunConserves` | crates/codegen/xai-chat-state/src/usage.rs:120-152 | after every run each counter of the totals is the capped sum over the models; main-loop calls are counted exactly up to the cap and never exceed model calls; incomplete exactly if some step said so |
| `UsageLedger.TotalsAreReported` | crates/codegen/xai-chat-state/src/usage.rs:46-63 | after every run each counter is the capped sum of everything reported, field by field |
| `UsageLedger.RecordsCarryCharges` | crates/codegen/xai-chat-state/src/usage.rs:46-63 | what a run folds in carries just the ticks the steps report: a main-loop call's cost when it is positive, a subagent's entries as they are, each to its model |
| `UsageLedger.RunCostWalks` | crates/codegen/xai-chat-state/src/usage.rs:99-104 | after every run, told from the steps, for costs of any sign: absent exactly when no step reported one; totals and each model hold the clamped walk of the ticks reported for them |
| `UsageLedger.RunCostIff` | crates/codegen/xai-chat-state/src/usage.rs:99-104 | when cost is conserved, for every run and any signs, told from the reports: the clamped walk of all ticks equals the sum of each model's clamped walk, capped or not |
| `UsageLedger.UnsaturatedIff` | crates/codegen/xai-chat-state/src/usage.rs:99-104 | no saturating add bites exactly when, after every record, all ticks reported and all charged to its model fit 64 bits |
| `UsageLedger.FittingCostIsExact` | crates/codegen/xai-chat-state/src/usage.rs:99-104 | if the reports fit throughout, the cost is the sum over the models and all that was reported |
| `UsageLedger.RunDecidedByReports` | crates/codegen/xai-chat-state/src/usage.rs:99-104 | up to and including the first report that does not fit, told from the reports: still the sum over the models exactly when it fits after all or the other models sum to zero; still that sum capped exactly unless they pull back a model that left the range |
| `UsageLedger.RunConservesCost` | crates/codegen/xai-chat-state/src/usage.rs:99-104 | with nonnegative subagent costs the cost is the capped sum over the models, saturating or not |
| `UsageLedger.NegativeCostIsNotConserved` | crates/codegen/xai-chat-state/src/usage.rs:133-140 | a negative subagent cost after a saturated sum breaks cost conservation |
| `UsageLedger.MutableLedger.RecordMainLoopCall` | crates/codegen/xai-chat-state/src/usage.rs:120-131 | the method is the modelled step |
| `UsageLedger.MutableLedger.RecordSubagent` | crates/codegen/xai-chat-state/src/usage.rs:133-140 | the loop folds every entry and only ever sets the incomplete flag |
| `UsageLedger.MutableLedger.Mark` | crates/codegen/xai-chat-state/src/usage.rs:142-144 | sets the flag and nothing else |
| `UsageLedger.FoldInto` | crates/codegen/xai-chat-state/src/usage.rs:146-152 | finds the model's entry or appends one, keeping order |
| `UnifiedDiff.FinishConserves` | crates/bot-provider-codex/src/diff.rs:118-149 | a detail exists exactly for hunks with a change; context, old and context again is the old side's text, and likewise the new side |
| `UnifiedDiff.LineOnEachSide` | crates/bot-provider-codex/src/diff.rs:118-149 | a deleted line is on the old side only, an inserted one on the new side only, a context line on both; sides concatenate line by line |
| `UnifiedDiff.FinishTakesAllContext` | crates/bot-provider-codex/src/diff.rs:118-141 | the contexts are maximal and the line numbers are those of the first change, saturating |
| `UnifiedDiff.ParseUnifiedDiff` | crates/bot-provider-codex/src/diff.rs:33-65 | the loop over lines with a current hunk computes the parse |
| `UnifiedDiff.ParseBody` | crates/bot-provider-codex/src/diff.rs:44-60 | lines up to the next header extend the current hunk only, whatever follows |
| `UnifiedDiff.NoiseIsIgnored` | crates/bot-provider-codex/src/diff.rs:44-60 | a line that starts with none of the three prefixes and is no header changes nothing, wherever it stands |
| `UnifiedDiff.HeaderRoundTrip` | crates/bot-provider-codex/src/diff.rs:107-116 | a printed header reads back its two starts, whatever counts and trailing text it carries |
| `UnifiedDiff.HeaderHasRanges` | crates/bot-provider-codex/src/diff.rs:107-116 | nothing else is taken for a header: two ranges stand between its markers, and the numbers read are theirs |
| `UnifiedDiff.PrintParseRoundTrip` | crates/bot-provider-codex/src/diff.rs:33-65 | printing any hunks behind any complete text without hunk headers and parsing the result returns exactly their details |
| `UnifiedDiff.SplitSections` | crates/bot-provider-codex/src/diff.rs:67-79 | the loop over lines computes the sections |
| `UnifiedDiff.SplitTurnDiffConserves` | crates/bot-provider-codex/src/diff.rs:67-79 | the sections concatenate to the input, cut exactly before every marker line after the first line |

## Left out

- Token estimation: any nonnegative cost per item; overflow of the token and byte sums is not modelled.
- JSON text of fields that eviction never touches: any text; serialization failures are not modelled.
- Attachments, todo lists, plans and other passive fields of the compaction context: carried as given items, not computed; rendering the prelude texts is a parameter.
- The summary-before-recent carrier: the code always returns none, so it has no counterpart.
- The remaining preparation passes of compaction_utils.rs (stripping reasoning, images and tool messages, verbatim and segment preparation): single filters that would only add easy members.
- `wait_stable` and all timing: deadlines become a step that may happen at any time; lossy decoding of the raw tail in diagnostics is not modelled.
- A resize whose PTY call fails: it changes no grid and bumps nothing; the 64-bit generation counter is unbounded here.
- Tokio: a watch receiver reports an unseen value before closure, a oneshot is sent at most once, channels are first in, first out; the channel bound of the line reader is not modelled.
- The line reader's producer runs one line at a time in the model; its state between two fills is private to it.
- Dropping the client aborts the reader without a drain; decoding of messages, events to subscribers and result types are not modelled.
- `StringInterner` iteration, UTF-8 views and capacity management: no state.
- `reindex_file` reads and parses; here a path's entry is a function of the disk. Different spellings of one path are different paths, and the throttled cache save is not modelled.
- Tool-call titles, details and states in normalize.rs: lookup tables.
- The path filter of `split_turn_diff` (`diff_path`, `header_path`): a chain of prefix tests.
- The system message of a compaction input is a system item, as its field documents; an agent message passed there would be found as one.
- ShortImageMissesTarget: needs a short and a long image, as it constructs a failing history for any such policy.
- ProgramMissesTarget: built from a user item whose optional fields are absent, as their JSON text is otherwise a parameter.
- FitTotal: the item estimate is a parameter, so that the program's cuts cost at most their limit is a hypothesis here.
