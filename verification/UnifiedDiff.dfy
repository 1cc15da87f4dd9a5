/** Parsing unified diffs into edit details, and splitting a turn's diff by file. */
module UnifiedDiff {
  import opened Text
  import opened Lines

  const USIZE_MAX: nat := 0xFFFF_FFFF_FFFF_FFFF

  datatype Kind = Context | Delete | Insert

  datatype HunkLine = HunkLine(kind: Kind, text: string)

  datatype Hunk = Hunk(oldStart: nat, newStart: nat, lines: seq<HunkLine>)

  datatype Detail = Detail(
    oldString: string, oldLine: nat, newString: string, newLine: nat,
    contextBefore: string, contextAfter: string, linePrefix: string)

  // ---------- Hunk headers ----------

  function SplitOnce(s: string, pat: string): Option<(string, string)> {
    match Find(s, pat)
    case None => None
    case Some(k) => Some((s[..k], s[k + |pat|..]))
  }

  predicate AllDigits(s: string) { forall i :: 0 <= i < |s| ==> IsDigit(s[i]) }

  /** `str::parse::<usize>`: an optional plus sign, then digits, within 64 bits. */
  function ParseUsize(s: string): Option<nat> {
    var digits := if s != [] && s[0] == '+' then s[1..] else s;
    if digits != [] && AllDigits(digits) && DigitsValue(digits) <= USIZE_MAX then Some(DigitsValue(digits)) else None
  }

  function BeforeComma(s: string): string {
    if s == [] || s[0] == ',' then [] else [s[0]] + BeforeComma(s[1..])
  }

  function ParseRangeStart(value: string): Option<nat> { ParseUsize(BeforeComma(value)) }

  const OPENING := "@@ -"

  function ParseHunkHeader(line: string): Option<(nat, nat)> {
    if !(OPENING <= line) then None
    else
      match SplitOnce(line[|OPENING|..], " +")
      case None => None
      case Some((left, body)) =>
        match SplitOnce(body, " @@")
        case None => None
        case Some((right, _)) =>
          match (ParseRangeStart(left), ParseRangeStart(right))
          case (Some(o), Some(n)) => Some((o, n))
          case (_, _) => None
  }

  /** A range as it may be written: digits, perhaps signed, and perhaps a count behind a comma. */
  ghost predicate IsRange(text: string, start: nat, sign: string, digits: string, count: string) {
    && text == sign + digits + count && (sign == [] || sign == "+") && (count == [] || count[0] == ',')
    && digits != [] && AllDigits(digits) && DigitsValue(digits) == start <= USIZE_MAX
  }

  lemma {:induction false} BeforeCommaSplits(s: string) returns (count: string)
    ensures s == BeforeComma(s) + count && (count == [] || count[0] == ',')
  {
    if s == [] || s[0] == ',' {
      count := s;
      assert s == [] + count;
    } else {
      count := BeforeCommaSplits(s[1..]);
      Assoc([s[0]], BeforeComma(s[1..]), count);
      assert s == [s[0]] + s[1..];
    }
  }

  lemma RangeIsRead(text: string) returns (sign: string, digits: string, count: string)
    requires ParseRangeStart(text).Some?
    ensures IsRange(text, ParseRangeStart(text).value, sign, digits, count)
  {
    count := BeforeCommaSplits(text);
    var before := BeforeComma(text);
    if before[0] == '+' {
      sign, digits := "+", before[1..];
      assert before == sign + digits;
    } else {
      sign, digits := [], before;
      assert before == sign + digits;
    }
  }

  ghost predicate StartsWithRange(text: string, start: nat) {
    exists sign, digits, count :: IsRange(text, start, sign, digits, count)
  }

  lemma SplitOnceIs(s: string, pat: string)
    requires SplitOnce(s, pat).Some?
    ensures var parts := SplitOnce(s, pat).value; s == parts.0 + (pat + parts.1)
  {
  }

  /** Nothing else is taken for a header: it holds two ranges between its markers, and the numbers
      read are theirs. */
  lemma HeaderHasRanges(line: string) returns (left: string, right: string, tail: string)
    requires ParseHunkHeader(line).Some?
    ensures line == "@@ -" + (left + (" +" + (right + (" @@" + tail))))
    ensures StartsWithRange(left, ParseHunkHeader(line).value.0)
    ensures StartsWithRange(right, ParseHunkHeader(line).value.1)
  {
    var rest := line[|OPENING|..];
    assert line == OPENING + rest;
    SplitOnceIs(rest, " +");
    left := SplitOnce(rest, " +").value.0;
    var body := SplitOnce(rest, " +").value.1;
    SplitOnceIs(body, " @@");
    right, tail := SplitOnce(body, " @@").value.0, SplitOnce(body, " @@").value.1;
    var a, b, c := RangeIsRead(left);
    var d, e, f := RangeIsRead(right);
  }

  // ---------- Finishing a hunk ----------

  function JoinText(lines: seq<HunkLine>, keeps: Kind -> bool): string {
    if lines == [] then [] else (if keeps(lines[0].kind) then lines[0].text else []) + JoinText(lines[1..], keeps)
  }

  predicate AllContext(lines: seq<HunkLine>) { forall i :: 0 <= i < |lines| ==> lines[i].kind.Context? }

  function FirstChange(lines: seq<HunkLine>): (r: Option<nat>)
    ensures r.None? <==> AllContext(lines)
    ensures r.Some? ==> r.value < |lines| && !lines[r.value].kind.Context? && AllContext(lines[..r.value])
  {
    if lines == [] then None
    else if !lines[0].kind.Context? then Some(0)
    else match FirstChange(lines[1..]) case None => None case Some(k) => Some(k + 1)
  }

  function LastChange(lines: seq<HunkLine>): (r: Option<nat>)
    ensures r.None? <==> AllContext(lines)
    ensures r.Some? ==> r.value < |lines| && !lines[r.value].kind.Context? && AllContext(lines[r.value + 1..])
  {
    if lines == [] then None
    else if !lines[|lines| - 1].kind.Context? then Some(|lines| - 1)
    else LastChange(lines[..|lines| - 1])
  }

  function SaturatingAdd(a: nat, b: nat): nat { if a + b <= USIZE_MAX then a + b else USIZE_MAX }

  const EVERY: Kind -> bool := (k: Kind) => true
  const OLD: Kind -> bool := (k: Kind) => !k.Insert?
  const NEW: Kind -> bool := (k: Kind) => !k.Delete?

  function FinishHunk(h: Hunk): Option<Detail> {
    match (FirstChange(h.lines), LastChange(h.lines))
    case (Some(first), Some(last)) =>
      ChangesAreOrdered(h.lines);
      var body := h.lines[first..last + 1];
      Some(Detail(
        JoinText(body, OLD), SaturatingAdd(h.oldStart, first), JoinText(body, NEW), SaturatingAdd(h.newStart, first),
        JoinText(h.lines[..first], EVERY), JoinText(h.lines[last + 1..], EVERY), []))
    case (_, _) => None
  }

  lemma ChangesAreOrdered(lines: seq<HunkLine>)
    requires !AllContext(lines)
    ensures FirstChange(lines).value <= LastChange(lines).value
  {
  }

  lemma {:induction false} JoinTextConcat(a: seq<HunkLine>, b: seq<HunkLine>, keeps: Kind -> bool)
    ensures JoinText(a + b, keeps) == JoinText(a, keeps) + JoinText(b, keeps)
  {
    if a == [] {
      assert a + b == b;
    } else {
      assert (a + b)[1..] == a[1..] + b;
      JoinTextConcat(a[1..], b, keeps);
      Assoc(if keeps(a[0].kind) then a[0].text else [], JoinText(a[1..], keeps), JoinText(b, keeps));
    }
  }

  /** What a single line adds to each side, and to a context; with the law above this is what the
      sides of any hunk are. */
  lemma LineOnEachSide(line: HunkLine)
    ensures JoinText([line], OLD) == (if line.kind.Insert? then [] else line.text)
    ensures JoinText([line], NEW) == (if line.kind.Delete? then [] else line.text)
    ensures JoinText([line], EVERY) == line.text
  {
    assert [line][1..] == [];
    assert line.text + [] == line.text;
  }

  lemma {:induction false} ContextIsOnBothSides(lines: seq<HunkLine>, keeps: Kind -> bool)
    requires AllContext(lines) && keeps(Context)
    ensures JoinText(lines, keeps) == JoinText(lines, EVERY)
  {
    if lines != [] {
      ContextIsOnBothSides(lines[1..], keeps);
    }
  }

  lemma JoinThree(lines: seq<HunkLine>, i: nat, j: nat, keeps: Kind -> bool)
    requires i <= j <= |lines| && AllContext(lines[..i]) && AllContext(lines[j..]) && keeps(Context)
    ensures JoinText(lines, keeps)
         == JoinText(lines[..i], EVERY) + JoinText(lines[i..j], keeps) + JoinText(lines[j..], EVERY)
  {
    assert lines == lines[..j] + lines[j..];
    assert lines[..j] == lines[..i] + lines[i..j];
    JoinTextConcat(lines[..j], lines[j..], keeps);
    JoinTextConcat(lines[..i], lines[i..j], keeps);
    ContextIsOnBothSides(lines[..i], keeps);
    ContextIsOnBothSides(lines[j..], keeps);
  }

  /** How many context lines a hunk opens with, and closes with. */
  function Leading(lines: seq<HunkLine>): nat {
    if lines == [] || !lines[0].kind.Context? then 0 else 1 + Leading(lines[1..])
  }

  function Trailing(lines: seq<HunkLine>): nat {
    if lines == [] || !lines[|lines| - 1].kind.Context? then 0 else 1 + Trailing(lines[..|lines| - 1])
  }

  lemma {:induction false} FirstChangeIs(lines: seq<HunkLine>)
    requires !AllContext(lines)
    ensures FirstChange(lines) == Some(Leading(lines))
  {
    if lines[0].kind.Context? {
      FirstChangeIs(lines[1..]);
    }
  }

  lemma {:induction false} LastChangeIs(lines: seq<HunkLine>)
    requires !AllContext(lines)
    ensures Trailing(lines) < |lines| && LastChange(lines) == Some(|lines| - Trailing(lines) - 1)
  {
    if lines[|lines| - 1].kind.Context? {
      LastChangeIs(lines[..|lines| - 1]);
    }
  }

  /** No hunk text is lost: a hunk with a change gives a detail whose parts are, in order, its context
      and deleted lines, and its context and inserted lines; any other hunk gives none. */
  lemma FinishConserves(h: Hunk)
    ensures FinishHunk(h).Some? <==> !AllContext(h.lines)
    ensures FinishHunk(h).Some? ==>
      var d := FinishHunk(h).value;
      && d.contextBefore + d.oldString + d.contextAfter == JoinText(h.lines, OLD)
      && d.contextBefore + d.newString + d.contextAfter == JoinText(h.lines, NEW)
  {
    if !AllContext(h.lines) {
      var first, last := FirstChange(h.lines).value, LastChange(h.lines).value;
      ChangesAreOrdered(h.lines);
      JoinThree(h.lines, first, last + 1, OLD);
      JoinThree(h.lines, first, last + 1, NEW);
    }
  }

  /** The contexts are as long as they can be, and the line numbers are those of the first change. */
  lemma FinishTakesAllContext(h: Hunk)
    requires FinishHunk(h).Some?
    ensures var d, n, m := FinishHunk(h).value, Leading(h.lines), Trailing(h.lines);
      && n + m < |h.lines|
      && d.contextBefore == JoinText(h.lines[..n], EVERY) && d.contextAfter == JoinText(h.lines[|h.lines| - m..], EVERY)
      && d.oldLine == SaturatingAdd(h.oldStart, n) && d.newLine == SaturatingAdd(h.newStart, n)
  {
    FirstChangeIs(h.lines);
    LastChangeIs(h.lines);
    ChangesAreOrdered(h.lines);
  }

  // ---------- Parsing ----------

  function LineOf(line: string): Option<HunkLine> {
    if line == [] then None
    else if line[0] == ' ' then Some(HunkLine(Context, line[1..]))
    else if line[0] == '-' then Some(HunkLine(Delete, line[1..]))
    else if line[0] == '+' then Some(HunkLine(Insert, line[1..]))
    else None
  }

  function Extend(current: Option<Hunk>, line: string): Option<Hunk> {
    if current.None? || LineOf(line).None? then current
    else Some(current.value.(lines := current.value.lines + [LineOf(line).value]))
  }

  function Finished(current: Option<Hunk>): seq<Detail> {
    if current.None? || FinishHunk(current.value).None? then [] else [FinishHunk(current.value).value]
  }

  function Parse(lines: seq<string>, current: Option<Hunk>): seq<Detail>
    decreases |lines|
  {
    if lines == [] then Finished(current)
    else
      match ParseHunkHeader(lines[0])
      case Some((o, n)) => Finished(current) + Parse(lines[1..], Some(Hunk(o, n, [])))
      case None => Parse(lines[1..], Extend(current, lines[0]))
  }

  lemma ParseStep(lines: seq<string>, i: nat, current: Option<Hunk>)
    requires i < |lines|
    ensures var header := ParseHunkHeader(lines[i]);
      Parse(lines[i..], current) ==
      if header.Some? then Finished(current) + Parse(lines[i + 1..], Some(Hunk(header.value.0, header.value.1, [])))
      else Parse(lines[i + 1..], Extend(current, lines[i]))
  {
    assert lines[i..][1..] == lines[i + 1..];
  }

  method PushFinished(details: seq<Detail>, current: Option<Hunk>) returns (pushed: seq<Detail>)
    ensures pushed == details + Finished(current)
  {
    pushed := details;
    if current.Some? {
      var hunk := FinishHunk(current.value);
      if hunk.Some? {
        pushed := details + [hunk.value];
      }
    }
  }

  method ParseUnifiedDiff(diff: string) returns (details: seq<Detail>)
    ensures details == Parse(SplitInclusive(diff), None)
  {
    var lines := SplitInclusive(diff);
    var current: Option<Hunk> := None;
    details := [];
    ghost var all := Parse(lines, None);
    ghost var rest := all;
    assert lines[0..] == lines;
    for i := 0 to |lines|
      invariant rest == Parse(lines[i..], current) && details + rest == all
    {
      ParseStep(lines, i, current);
      var header := ParseHunkHeader(lines[i]);
      if header.Some? {
        var start := Some(Hunk(header.value.0, header.value.1, []));
        rest := Parse(lines[i + 1..], start);
        Assoc(details, Finished(current), rest);
        details := PushFinished(details, current);
        current := start;
      } else {
        current := Extend(current, lines[i]);
      }
    }
    details := PushFinished(details, current);
  }

  function ExtendAll(current: Option<Hunk>, lines: seq<string>): Option<Hunk>
    decreases |lines|
  {
    if lines == [] then current else ExtendAll(Extend(current, lines[0]), lines[1..])
  }

  predicate NoHeaders(lines: seq<string>) { lines == [] || (ParseHunkHeader(lines[0]).None? && NoHeaders(lines[1..])) }

  /** Lines up to the next header extend the current hunk, whatever follows. */
  lemma {:induction false} ParseBody(lines: seq<string>, rest: seq<string>, current: Option<Hunk>)
    requires NoHeaders(lines)
    ensures Parse(lines + rest, current) == Parse(rest, ExtendAll(current, lines))
    decreases |lines|
  {
    if lines == [] {
      assert lines + rest == rest;
    } else {
      assert (lines + rest)[1..] == lines[1..] + rest;
      ParseBody(lines[1..], rest, Extend(current, lines[0]));
    }
  }

  lemma {:induction false} NothingToExtend(lines: seq<string>)
    ensures ExtendAll(None, lines) == None
  {
    if lines != [] {
      NothingToExtend(lines[1..]);
    }
  }

  /** Text before the first header is ignored. */
  lemma PreambleIsIgnored(preamble: seq<string>, rest: seq<string>)
    requires NoHeaders(preamble)
    ensures Parse(preamble + rest, None) == Parse(rest, None)
  {
    ParseBody(preamble, rest, None);
    NothingToExtend(preamble);
  }

  lemma {:induction false} ParseWithout(lines: seq<string>, line: string, rest: seq<string>, current: Option<Hunk>)
    requires ParseHunkHeader(line).None? && (line == [] || (line[0] != ' ' && line[0] != '-' && line[0] != '+'))
    ensures Parse(lines + ([line] + rest), current) == Parse(lines + rest, current)
    decreases |lines|
  {
    if lines == [] {
      assert lines + rest == rest && lines + ([line] + rest) == [line] + rest;
      assert ([line] + rest)[1..] == rest;
    } else {
      var all := lines + ([line] + rest);
      assert all[1..] == lines[1..] + ([line] + rest) && (lines + rest)[1..] == lines[1..] + rest;
      match ParseHunkHeader(lines[0])
      case Some((o, n)) => ParseWithout(lines[1..], line, rest, Some(Hunk(o, n, [])));
      case None => ParseWithout(lines[1..], line, rest, Extend(current, lines[0]));
    }
  }

  /** A line that starts with none of the three prefixes and is no header says nothing, wherever it
      stands: a note about a missing newline, a file header, an empty line. */
  lemma NoiseIsIgnored(lines: seq<string>, line: string, rest: seq<string>)
    requires line == [] || (line[0] != ' ' && line[0] != '-' && line[0] != '+' && line[0] != '@')
    ensures Parse(lines + ([line] + rest), None) == Parse(lines + rest, None)
  {
    assert OPENING[0] == '@';
    ParseWithout(lines, line, rest, None);
  }

  // ---------- Printing ----------

  /** A hunk with the rest of its header: the counts after each start, and what follows the range. */
  datatype Printed = Printed(hunk: Hunk, oldCount: string, newCount: string, tail: string)

  predicate IsCount(s: string) { ' ' !in s && (s == [] || s[0] == ',') }

  predicate IsPrintable(p: Printed) {
    IsCount(p.oldCount) && IsCount(p.newCount) && p.hunk.oldStart <= USIZE_MAX && p.hunk.newStart <= USIZE_MAX
  }

  function RangeText(start: nat, count: string): string { Decimal(start) + count }

  function Header(p: Printed): string {
    OPENING + (RangeText(p.hunk.oldStart, p.oldCount)
      + (" +" + (RangeText(p.hunk.newStart, p.newCount) + (" @@" + p.tail))))
  }

  function Prefix(kind: Kind): char {
    match kind
    case Context => ' '
    case Delete => '-'
    case Insert => '+'
  }

  function PrintLines(lines: seq<HunkLine>): seq<string> {
    if lines == [] then [] else [[Prefix(lines[0].kind)] + lines[0].text] + PrintLines(lines[1..])
  }

  function Print(hunks: seq<Printed>): seq<string> {
    if hunks == [] then [] else [Header(hunks[0])] + (PrintLines(hunks[0].hunk.lines) + Print(hunks[1..]))
  }

  function Details(hunks: seq<Printed>): seq<Detail> {
    if hunks == [] then [] else Finished(Some(hunks[0].hunk)) + Details(hunks[1..])
  }

  lemma SplitAtSpace(a: string, pat: string, b: string)
    requires ' ' !in a && pat != [] && pat[0] == ' '
    ensures SplitOnce(a + (pat + b), pat) == Some((a, b))
  {
    var s := a + (pat + b);
    assert OccursAt(s, pat, |a|);
    var k := Find(s, pat).value;
    assert k <= |a|;
    assert s[k] == s[k..k + |pat|][0] == ' ';
    assert s[..|a|] == a && s[|a| + |pat|..] == b;
  }

  lemma {:induction false} BeforeCommaIs(digits: string, count: string)
    requires ',' !in digits && (count == [] || count[0] == ',')
    ensures BeforeComma(digits + count) == digits
  {
    if digits == [] {
      assert digits + count == count;
    } else {
      assert (digits + count)[1..] == digits[1..] + count;
      BeforeCommaIs(digits[1..], count);
    }
  }

  lemma RangeRoundTrip(start: nat, count: string)
    requires start <= USIZE_MAX && IsCount(count)
    ensures ParseRangeStart(RangeText(start, count)) == Some(start) && ' ' !in RangeText(start, count)
  {
    var digits := Decimal(start);
    assert forall c :: c in digits ==> IsDigit(c);
    BeforeCommaIs(digits, count);
    DecimalRoundTrip(start);
  }

  lemma HeaderRoundTrip(p: Printed)
    requires IsPrintable(p)
    ensures ParseHunkHeader(Header(p)) == Some((p.hunk.oldStart, p.hunk.newStart))
  {
    var left, right := RangeText(p.hunk.oldStart, p.oldCount), RangeText(p.hunk.newStart, p.newCount);
    RangeRoundTrip(p.hunk.oldStart, p.oldCount);
    RangeRoundTrip(p.hunk.newStart, p.newCount);
    var body := right + (" @@" + p.tail);
    SplitAtSpace(left, " +", body);
    SplitAtSpace(right, " @@", p.tail);
    assert Header(p)[|OPENING|..] == left + (" +" + body);
  }

  lemma PrintedLineParses(l: HunkLine)
    ensures var line := [Prefix(l.kind)] + l.text; ParseHunkHeader(line).None? && LineOf(line) == Some(l)
  {
    var line := [Prefix(l.kind)] + l.text;
    assert line[0] != '@' && line[1..] == l.text;
    assert OPENING[0] == '@';
  }

  lemma {:induction false} PrintedLinesAreNoHeaders(lines: seq<HunkLine>)
    ensures NoHeaders(PrintLines(lines))
  {
    if lines != [] {
      PrintedLineParses(lines[0]);
      PrintedLinesAreNoHeaders(lines[1..]);
      assert PrintLines(lines)[1..] == PrintLines(lines[1..]);
    }
  }

  lemma PrintedLineExtends(l: HunkLine, h: Hunk)
    ensures Extend(Some(h), [Prefix(l.kind)] + l.text) == Some(h.(lines := h.lines + [l]))
  {
    PrintedLineParses(l);
  }

  lemma {:induction false} PrintedLinesExtend(lines: seq<HunkLine>, h: Hunk)
    ensures ExtendAll(Some(h), PrintLines(lines)) == Some(h.(lines := h.lines + lines))
    decreases |lines|
  {
    if lines == [] {
      assert h.lines + lines == h.lines;
    } else {
      var first, rest := lines[0], lines[1..];
      var next := h.(lines := h.lines + [first]);
      PrintedLineExtends(first, h);
      PrintedLinesExtend(rest, next);
      assert PrintLines(lines)[1..] == PrintLines(rest);
      Assoc(h.lines, [first], rest);
      assert [first] + rest == lines;
    }
  }

  ghost predicate AllPrintable(hunks: seq<Printed>) { forall i :: 0 <= i < |hunks| ==> IsPrintable(hunks[i]) }

  lemma ParsePrintedHunk(p: Printed, rest: seq<string>, current: Option<Hunk>)
    requires IsPrintable(p)
    ensures Parse([Header(p)] + (PrintLines(p.hunk.lines) + rest), current)
         == Finished(current) + Parse(rest, Some(p.hunk))
  {
    var body := PrintLines(p.hunk.lines);
    var lines := [Header(p)] + (body + rest);
    var start := Hunk(p.hunk.oldStart, p.hunk.newStart, []);
    HeaderRoundTrip(p);
    assert lines[1..] == body + rest;
    PrintedLinesAreNoHeaders(p.hunk.lines);
    PrintedLinesExtend(p.hunk.lines, start);
    assert [] + p.hunk.lines == p.hunk.lines;
    ParseBody(body, rest, Some(start));
  }

  lemma {:induction false} ParsePrinted(hunks: seq<Printed>, current: Option<Hunk>)
    requires AllPrintable(hunks)
    ensures Parse(Print(hunks), current) == Finished(current) + Details(hunks)
    decreases |hunks|
  {
    if hunks != [] {
      ParsePrintedHunk(hunks[0], Print(hunks[1..]), current);
      ParsePrinted(hunks[1..], Some(hunks[0].hunk));
    }
  }

  /** Printing any hunks and parsing the text gives exactly their details, also behind a text without
      headers, such as the file headers of a diff. */
  lemma PrintParseRoundTrip(preamble: string, hunks: seq<Printed>)
    requires preamble == [] || preamble[|preamble| - 1] == '\n'
    requires NoHeaders(SplitInclusive(preamble)) && AllPrintable(hunks) && AreLines(Print(hunks))
    ensures Parse(SplitInclusive(preamble + Joined(Print(hunks))), None) == Details(hunks)
  {
    var before, printed := SplitInclusive(preamble), Print(hunks);
    SplitIsComplete(preamble);
    CompleteThenLines(before, printed);
    JoinedConcat(before, printed);
    JoinedSplit(preamble);
    SplitJoined(before + printed);
    PreambleIsIgnored(before, printed);
    ParsePrinted(hunks, None);
    assert [] + Details(hunks) == Details(hunks);
  }

  // ---------- Splitting by file ----------

  const MARKER := "diff --git "

  predicate StartsSection(line: string) { MARKER <= line }

  function Sections(lines: seq<string>, current: string): seq<string>
    decreases |lines|
  {
    if lines == [] then (if current == [] then [] else [current])
    else if StartsSection(lines[0]) && current != [] then [current] + Sections(lines[1..], lines[0])
    else Sections(lines[1..], current + lines[0])
  }

  method SplitSections(diff: string) returns (sections: seq<string>)
    ensures sections == Sections(SplitInclusive(diff), [])
  {
    var lines := SplitInclusive(diff);
    var current := [];
    sections := [];
    ghost var rest := Sections(lines, []);
    assert lines[0..] == lines;
    for i := 0 to |lines|
      invariant rest == Sections(lines[i..], current) && sections + rest == Sections(lines, [])
    {
      assert lines[i..][1..] == lines[i + 1..];
      if StartsSection(lines[i]) && current != [] {
        rest := Sections(lines[i + 1..], lines[i]);
        Assoc(sections, [current], rest);
        sections, current := sections + [current], [];
        assert current + lines[i] == lines[i];
      }
      current := current + lines[i];
    }
    if current != [] {
      sections := sections + [current];
    }
  }

  /** Sections, joined, are the diff. */
  lemma {:induction false} SectionsConserve(lines: seq<string>, current: string)
    ensures Joined(Sections(lines, current)) == current + Joined(lines)
    decreases |lines|
  {
    if lines == [] {
      assert current + [] == current;
      if current != [] {
        assert [current][1..] == [];
      }
    } else if StartsSection(lines[0]) && current != [] {
      SectionsConserve(lines[1..], lines[0]);
      var later := Sections(lines[1..], lines[0]);
      assert ([current] + later)[1..] == later;
    } else {
      SectionsConserve(lines[1..], current + lines[0]);
      Assoc(current, lines[0], Joined(lines[1..]));
    }
  }

  function Markers(lines: seq<string>): nat {
    if lines == [] then 0 else (if StartsSection(lines[0]) then 1 else 0) + Markers(lines[1..])
  }

  /** One section per marker line, and one for what comes before the first; each marker starts one. */
  lemma {:induction false} SectionsAreMarked(lines: seq<string>, current: string)
    requires current != []
    ensures |Sections(lines, current)| == 1 + Markers(lines)
    ensures current <= Sections(lines, current)[0]
    ensures forall i :: 1 <= i < |Sections(lines, current)| ==> StartsSection(Sections(lines, current)[i])
    decreases |lines|
  {
    if lines != [] {
      if StartsSection(lines[0]) {
        SectionsAreMarked(lines[1..], lines[0]);
      } else {
        SectionsAreMarked(lines[1..], current + lines[0]);
      }
    }
  }

  /** Splitting a whole diff loses nothing and cuts exactly before the marker lines after the first line. */
  lemma SplitTurnDiffConserves(diff: string)
    ensures var lines := SplitInclusive(diff);
      var sections := Sections(lines, []);
      && Joined(sections) == diff
      && |sections| == (if lines == [] then 0 else 1 + Markers(lines[1..]))
      && forall i :: 1 <= i < |sections| ==> StartsSection(sections[i])
  {
    var lines := SplitInclusive(diff);
    SectionsConserve(lines, []);
    JoinedSplit(diff);
    if lines != [] {
      assert [] + lines[0] == lines[0];
      SectionsAreMarked(lines[1..], lines[0]);
    }
  }
}
