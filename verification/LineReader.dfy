/** A reader that only ever pauses between lines: a producer cuts the source into lines and queues them,
    and the reader serves queued lines piece by piece. */
module LineReader {
  import opened Text
  import opened Utf8
  import opened Lines

  const MAX_LINE_SIZE: nat := 64 * 1024 * 1024

  const NEWLINE: byte := 10

  /** What the producer queues: a line, or the error that ends it. */
  datatype Message = Line(bytes: seq<byte>) | TooLong | Broken

  // ---------- The lines of a byte string, however it arrives ----------

  predicate EndsLine(s: seq<byte>) { s != [] && s[|s| - 1] == NEWLINE }

  /** The messages for a source that holds `s` and then ends, or fails. */
  function Messages(cap: nat, s: seq<byte>, fails: bool): seq<Message>
    decreases |s|
  {
    if s == [] then (if fails then [Broken] else [])
    else
      var line := FirstLine(s, NEWLINE);
      if |line| > cap then [TooLong]
      else if fails && !EndsLine(line) then [Broken]
      else [Line(line)] + Messages(cap, s[|line|..], fails)
  }

  function Bytes(messages: seq<Message>): seq<byte> {
    if messages == [] then [] else (if messages[0].Line? then messages[0].bytes else []) + Bytes(messages[1..])
  }

  predicate AllLines(messages: seq<Message>) {
    messages == [] || (messages[0].Line? && AllLines(messages[1..]))
  }

  predicate Passes(cap: nat, line: seq<byte>, fails: bool) {
    |line| <= cap && (EndsLine(line) || !fails)
  }

  lemma MessagesStep(cap: nat, s: seq<byte>, fails: bool)
    requires s != [] && Passes(cap, FirstLine(s, NEWLINE), fails)
    ensures var line := FirstLine(s, NEWLINE);
      s == line + s[|line|..] && Messages(cap, s, fails) == [Line(line)] + Messages(cap, s[|line|..], fails)
  {
    FirstLineIs(s, NEWLINE);
  }

  lemma MessagesStop(cap: nat, s: seq<byte>, fails: bool)
    requires s != [] && !Passes(cap, FirstLine(s, NEWLINE), fails)
    ensures Messages(cap, s, fails) == [if |FirstLine(s, NEWLINE)| > cap then TooLong else Broken]
  {
  }

  lemma OneMore(m: Message, ms: seq<Message>)
    ensures Bytes([m] + ms) == (if m.Line? then m.bytes else []) + Bytes(ms)
    ensures AllLines([m] + ms) <==> m.Line? && AllLines(ms)
  {
    assert ([m] + ms)[1..] == ms;
  }

  lemma {:induction false} BytesConcat(a: seq<Message>, b: seq<Message>)
    ensures Bytes(a + b) == Bytes(a) + Bytes(b)
  {
    if a == [] {
      assert a + b == b;
    } else {
      assert (a + b)[1..] == a[1..] + b;
      BytesConcat(a[1..], b);
      Assoc(if a[0].Line? then a[0].bytes else [], Bytes(a[1..]), Bytes(b));
    }
  }

  /** Lines only ever carry a prefix of the source, and carry all of it unless an error cuts it. */
  lemma {:induction false} MessagesArePrefix(cap: nat, s: seq<byte>, fails: bool)
    ensures Bytes(Messages(cap, s, fails)) <= s
    ensures AllLines(Messages(cap, s, fails)) ==> Bytes(Messages(cap, s, fails)) == s
    decreases |s|
  {
    if s != [] {
      var line := FirstLine(s, NEWLINE);
      if Passes(cap, line, fails) {
        var rest := s[|line|..];
        MessagesStep(cap, s, fails);
        MessagesArePrefix(cap, rest, fails);
        OneMore(Line(line), Messages(cap, rest, fails));
      } else {
        MessagesStop(cap, s, fails);
      }
    }
  }

  predicate StopsBetweenLines(part: seq<byte>, s: seq<byte>) {
    part <= s && (part == [] || EndsLine(part) || part == s)
  }

  lemma LineThenMore(line: seq<byte>, rest: seq<byte>, more: seq<byte>)
    requires line != [] && (EndsLine(line) || rest == []) && StopsBetweenLines(more, rest)
    ensures StopsBetweenLines(line + more, line + rest)
  {
    if more != [] {
      assert (line + more)[|line + more| - 1] == more[|more| - 1];
    } else {
      assert line + more == line;
    }
  }

  lemma HeadPasses(cap: nat, s: seq<byte>, fails: bool, taken: seq<Message>, left: seq<Message>)
    requires taken + left == Messages(cap, s, fails) && taken != [] && taken[0].Line?
    ensures s != [] && Passes(cap, FirstLine(s, NEWLINE), fails) && taken[0] == Line(FirstLine(s, NEWLINE))
    ensures taken[1..] + left == Messages(cap, s[|FirstLine(s, NEWLINE)|..], fails)
  {
    assert (taken + left)[0] == taken[0];
    assert (taken + left)[1..] == taken[1..] + left;
  }

  /** Taking some of the lines stops after a newline, unless it takes everything. */
  lemma {:induction false} TakenEndsLine(cap: nat, s: seq<byte>, fails: bool, taken: seq<Message>, left: seq<Message>)
    requires taken + left == Messages(cap, s, fails) && AllLines(taken)
    ensures StopsBetweenLines(Bytes(taken), s)
    decreases |s|
  {
    if taken != [] {
      HeadPasses(cap, s, fails, taken, left);
      var line := FirstLine(s, NEWLINE);
      var rest := s[|line|..];
      TakenEndsLine(cap, rest, fails, taken[1..], left);
      FirstLineIs(s, NEWLINE);
      LineThenMore(line, rest, Bytes(taken[1..]));
    }
  }

  /** An error is the last message. */
  lemma {:induction false} ErrorComesLast(cap: nat, s: seq<byte>, fails: bool, taken: seq<Message>, left: seq<Message>)
    requires taken + left == Messages(cap, s, fails) && !AllLines(taken)
    ensures left == []
    decreases |s|
  {
    if s != [] {
      var line := FirstLine(s, NEWLINE);
      if Passes(cap, line, fails) {
        var rest := s[|line|..];
        MessagesStep(cap, s, fails);
        assert (taken + left)[0] == taken[0];
        assert (taken + left)[1..] == taken[1..] + left;
        assert ([Line(line)] + Messages(cap, rest, fails))[1..] == Messages(cap, rest, fails);
        ErrorComesLast(cap, rest, fails, taken[1..], left);
      } else {
        MessagesStop(cap, s, fails);
      }
    }
  }

  // ---------- The size error, by line length alone ----------

  /** Some line is longer than the cap: `cap` bytes without a newline, and then another byte. */
  ghost predicate HasLongLine(cap: nat, s: seq<byte>) {
    exists i :: LongAt(cap, s, i)
  }

  predicate LongAt(cap: nat, s: seq<byte>, i: int) {
    0 <= i && i + cap < |s| && forall j :: i <= j < i + cap ==> s[j] != NEWLINE
  }

  lemma LongLineIsLater(cap: nat, s: seq<byte>, i: int)
    requires s != [] && |FirstLine(s, NEWLINE)| <= cap && LongAt(cap, s, i)
    ensures LongAt(cap, s[|FirstLine(s, NEWLINE)|..], i - |FirstLine(s, NEWLINE)|)
  {
    var n := |FirstLine(s, NEWLINE)|;
    FirstLineIs(s, NEWLINE);
    assert s[n - 1] == NEWLINE;
    assert i >= n;
  }

  lemma LongAfterLine(cap: nat, s: seq<byte>, n: nat)
    requires n <= |s| && HasLongLine(cap, s[n..])
    ensures HasLongLine(cap, s)
  {
    var rest := s[n..];
    var i :| LongAt(cap, rest, i);
    forall j | i + n <= j < i + n + cap ensures s[j] != NEWLINE {
      assert s[j] == rest[j - n];
    }
    assert LongAt(cap, s, i + n);
  }

  /** The size error is reported exactly when some line is too long: chunking plays no part. */
  lemma {:induction false} SizeErrorIff(cap: nat, s: seq<byte>)
    ensures AllLines(Messages(cap, s, false)) <==> !HasLongLine(cap, s)
    decreases |s|
  {
    if s != [] {
      var line := FirstLine(s, NEWLINE);
      var rest := s[|line|..];
      if |line| > cap {
        FirstLineHasOneNewline(s, NEWLINE);
        assert LongAt(cap, s, 0);
        MessagesStop(cap, s, false);
      } else {
        SizeErrorIff(cap, rest);
        MessagesStep(cap, s, false);
        OneMore(Line(line), Messages(cap, rest, false));
        if i :| LongAt(cap, s, i) {
          LongLineIsLater(cap, s, i);
        }
        if HasLongLine(cap, rest) {
          LongAfterLine(cap, s, |line|);
        }
      }
    }
  }

  /** So with a sound source and no over-long line, everything arrives. */
  lemma AllArrives(cap: nat, s: seq<byte>)
    ensures !HasLongLine(cap, s) <==> AllLines(Messages(cap, s, false))
    ensures !HasLongLine(cap, s) ==> Bytes(Messages(cap, s, false)) == s
  {
    SizeErrorIff(cap, s);
    MessagesArePrefix(cap, s, false);
  }

  // ---------- Reading one line from chunks ----------

  /** The buffered source: nonempty chunks, as they happened to arrive, and then its end or a failure. */
  class Source {
    var chunks: seq<seq<byte>>
    const fails: bool

    ghost predicate Valid()
      reads this
    {
      forall i :: 0 <= i < |chunks| ==> chunks[i] != []
    }

    ghost function Rest(): seq<byte>
      reads this
    {
      Joined(chunks)
    }

    constructor (chunks: seq<seq<byte>>, fails: bool)
      requires forall i :: 0 <= i < |chunks| ==> chunks[i] != []
      ensures Valid() && this.chunks == chunks && this.fails == fails
    {
      this.chunks, this.fails := chunks, fails;
    }

    method Consume(n: nat)
      requires Valid() && chunks != [] && n <= |chunks[0]|
      modifies this
      ensures Valid() && old(Rest()) == old(chunks)[0][..n] + Rest()
      ensures |Rest()| == |old(Rest())| - n && (n == |old(chunks)[0]| ==> chunks == old(chunks)[1..])
    {
      ghost var head, tail := chunks[0], chunks[1..];
      Assoc(head[..n], head[n..], Joined(tail));
      assert head == head[..n] + head[n..];
      if n == |chunks[0]| {
        chunks := chunks[1..];
      } else {
        chunks := [chunks[0][n..]] + chunks[1..];
        assert chunks[1..] == tail;
      }
    }
  }

  function FindNewline(s: seq<byte>): (r: Option<nat>)
    ensures r.Some? ==> r.value < |s| && s[r.value] == NEWLINE && IsPlain(s[..r.value], NEWLINE)
    ensures r.None? ==> IsPlain(s, NEWLINE)
  {
    if s == [] then None
    else if s[0] == NEWLINE then Some(0)
    else match FindNewline(s[1..]) case None => None case Some(k) => Some(k + 1)
  }

  lemma LineFound(plain: seq<byte>, more: seq<byte>)
    requires IsPlain(plain, NEWLINE)
    ensures FirstLine(plain + [NEWLINE] + more, NEWLINE) == plain + [NEWLINE]
  {
    Assoc(plain, [NEWLINE], more);
    PlainThenMore(plain, [NEWLINE] + more, NEWLINE);
  }

  datatype Read = Got(line: seq<byte>) | Error(error: Message)

  /** What one call reads, given everything still to come. */
  function NextRead(cap: nat, s: seq<byte>, fails: bool): Read {
    var line := FirstLine(s, NEWLINE);
    if |line| > cap then Error(TooLong)
    else if fails && !EndsLine(line) then Error(Broken)
    else Got(line)
  }

  lemma NextReadIs(cap: nat, s: seq<byte>, fails: bool)
    ensures var r := NextRead(cap, s, fails);
      && (r.Error? ==> !r.error.Line? && Messages(cap, s, fails) == [r.error])
      && (r.Got? && r.line == [] ==> s == [] && Messages(cap, s, fails) == [])
      && (r.Got? && r.line != [] ==>
          |r.line| <= |s| && Messages(cap, s, fails) == [Line(r.line)] + Messages(cap, s[|r.line|..], fails))
  {
  }

  lemma ReadToEnd(cap: nat, buf: seq<byte>, fails: bool)
    requires IsPlain(buf, NEWLINE) && |buf| <= cap
    ensures NextRead(cap, buf, fails) == if fails then Error(Broken) else Got(buf)
  {
    PlainThenMore(buf, [], NEWLINE);
    assert buf + [] == buf;
  }

  lemma ReadLine(cap: nat, buf: seq<byte>, plain: seq<byte>, rest: seq<byte>, fails: bool)
    requires IsPlain(buf, NEWLINE) && IsPlain(plain, NEWLINE)
    ensures var line := buf + (plain + [NEWLINE]);
      NextRead(cap, buf + (plain + [NEWLINE] + rest), fails) == if |line| > cap then Error(TooLong) else Got(line)
  {
    LineFound(plain, rest);
    PlainThenMore(buf, plain + [NEWLINE] + rest, NEWLINE);
  }

  lemma ReadTooMuch(cap: nat, buf: seq<byte>, rest: seq<byte>, fails: bool)
    requires IsPlain(buf, NEWLINE) && |buf| > cap
    ensures NextRead(cap, buf + rest, fails) == Error(TooLong)
  {
    PlainThenMore(buf, rest, NEWLINE);
  }

  /** How many bytes one call has read when it returns, `n` of them before these chunks. */
  function BytesRead(cap: nat, chunks: seq<seq<byte>>, n: nat): nat
    decreases |chunks|
  {
    if chunks == [] then n
    else
      match FindNewline(chunks[0])
      case Some(pos) => n + pos + 1
      case None =>
        var m := n + |chunks[0]|;
        if m > cap then m else BytesRead(cap, chunks[1..], m)
  }

  /** One fill: everything available up to and including its first newline. */
  method TakePiece(source: Source, ghost cap: nat, ghost n: nat) returns (piece: seq<byte>, done: bool)
    requires source.Valid() && source.chunks != []
    modifies source
    ensures source.Valid() && old(source.Rest()) == piece + source.Rest() && piece != []
    ensures done ==> piece == piece[..|piece| - 1] + [NEWLINE] && IsPlain(piece[..|piece| - 1], NEWLINE)
    ensures !done ==> IsPlain(piece, NEWLINE)
    ensures BytesRead(cap, old(source.chunks), n) ==
      if done || n + |piece| > cap then n + |piece| else BytesRead(cap, source.chunks, n + |piece|)
  {
    var available := source.chunks[0];
    match FindNewline(available)
    case Some(pos) =>
      source.Consume(pos + 1);
      piece, done := available[..pos + 1], true;
      assert piece[..pos] == available[..pos];
    case None =>
      source.Consume(|available|);
      piece, done := available, false;
      assert available[..|available|] == available;
  }

  /** Reads the next line; `read` is how many bytes it took, which a size error quotes. */
  method ReadLineCapped(source: Source, cap: nat) returns (r: Read, read: nat)
    requires source.Valid()
    modifies source
    ensures source.Valid() && r == NextRead(cap, old(source.Rest()), source.fails)
    ensures r.Got? ==> old(source.Rest()) == r.line + source.Rest()
    ensures read == BytesRead(cap, old(source.chunks), 0) && (r == Error(TooLong) ==> read > cap)
  {
    var buf: seq<byte> := [];
    ghost var all := source.Rest();
    while source.chunks != []
      invariant source.Valid() && all == buf + source.Rest()
      invariant IsPlain(buf, NEWLINE) && |buf| <= cap
      invariant BytesRead(cap, source.chunks, |buf|) == BytesRead(cap, old(source.chunks), 0)
      decreases |source.Rest()|
    {
      var piece, done := TakePiece(source, cap, |buf|);
      Assoc(buf, piece, source.Rest());
      if done {
        ReadLine(cap, buf, piece[..|piece| - 1], source.Rest(), source.fails);
        return if |buf + piece| > cap then Error(TooLong) else Got(buf + piece), |buf + piece|;
      }
      buf := buf + piece;
      if |buf| > cap {
        ReadTooMuch(cap, buf, source.Rest(), source.fails);
        return Error(TooLong), |buf|;
      }
    }
    ReadToEnd(cap, buf, source.fails);
    assert buf + [] == buf;
    r, read := if source.fails then Error(Broken) else Got(buf), |buf|;
  }

  // ---------- The count a size error quotes ----------

  ghost predicate IsChunking(chunks: seq<seq<byte>>, s: seq<byte>) {
    Joined(chunks) == s && forall i :: 0 <= i < |chunks| ==> chunks[i] != []
  }

  lemma FirstLineInChunk(chunk: seq<byte>, rest: seq<byte>)
    ensures var k := FindNewline(chunk);
      |FirstLine(chunk + rest, NEWLINE)| == if k.Some? then k.value + 1 else |chunk| + |FirstLine(rest, NEWLINE)|
  {
    var k := FindNewline(chunk);
    if k.Some? {
      var plain, more := chunk[..k.value], chunk[k.value + 1..];
      assert chunk == plain + [NEWLINE] + more;
      Assoc(plain + [NEWLINE], more, rest);
      LineFound(plain, more + rest);
    } else {
      PlainThenMore(chunk, rest, NEWLINE);
    }
  }

  lemma {:induction false} BytesReadBounds(cap: nat, chunks: seq<seq<byte>>, n: nat)
    requires n <= cap < n + |FirstLine(Joined(chunks), NEWLINE)|
    ensures cap < BytesRead(cap, chunks, n) <= n + |FirstLine(Joined(chunks), NEWLINE)|
    decreases |chunks|
  {
    FirstLineInChunk(chunks[0], Joined(chunks[1..]));
    if FindNewline(chunks[0]).None? && n + |chunks[0]| <= cap {
      BytesReadBounds(cap, chunks[1..], n + |chunks[0]|);
    }
  }

  /** However an over-long line arrives, the count is above the cap and within the line. */
  lemma CountIsWithinLine(cap: nat, s: seq<byte>, chunks: seq<seq<byte>>)
    requires |FirstLine(s, NEWLINE)| > cap && IsChunking(chunks, s)
    ensures cap < BytesRead(cap, chunks, 0) <= |FirstLine(s, NEWLINE)|
  {
    BytesReadBounds(cap, chunks, 0);
  }

  /** In one chunk the whole line is counted. */
  lemma WholeChunkCountsLine(cap: nat, s: seq<byte>)
    requires |FirstLine(s, NEWLINE)| > cap
    ensures IsChunking([s], s) && BytesRead(cap, [s], 0) == |FirstLine(s, NEWLINE)|
  {
    JoinedPush<byte>([], s);
    assert [] + [s] == [s] && s + [] == s == [] + s;
    FirstLineInChunk(s, []);
  }

  /** With a first chunk of `cap + 1` bytes, no more than those. */
  lemma ShortChunkCountsLess(cap: nat, s: seq<byte>)
    requires |FirstLine(s, NEWLINE)| > cap + 1
    ensures IsChunking([s[..cap + 1], s[cap + 1..]], s) && BytesRead(cap, [s[..cap + 1], s[cap + 1..]], 0) == cap + 1
  {
    var a, b := s[..cap + 1], s[cap + 1..];
    JoinedPush([a], b);
    JoinedPush<byte>([], a);
    assert [a] + [b] == [a, b] && [] + [a] == [a] && [] + a == a && a + b == s;
    FirstLineHasOneNewline(s, NEWLINE);
    assert IsPlain(a, NEWLINE);
  }

  /** The quoted count is the same for every chunking exactly when the line is one byte too long. */
  lemma CountIsFixedIff(cap: nat, s: seq<byte>)
    requires |FirstLine(s, NEWLINE)| > cap
    ensures (forall a, b :: IsChunking(a, s) && IsChunking(b, s) ==> BytesRead(cap, a, 0) == BytesRead(cap, b, 0))
       <==> |FirstLine(s, NEWLINE)| == cap + 1
  {
    if |FirstLine(s, NEWLINE)| == cap + 1 {
      forall a, b | IsChunking(a, s) && IsChunking(b, s) ensures BytesRead(cap, a, 0) == BytesRead(cap, b, 0) {
        CountIsWithinLine(cap, s, a);
        CountIsWithinLine(cap, s, b);
      }
    } else {
      WholeChunkCountsLine(cap, s);
      ShortChunkCountsLess(cap, s);
      assert BytesRead(cap, [s], 0) != BytesRead(cap, [s[..cap + 1], s[cap + 1..]], 0);
    }
  }

  // ---------- The reader ----------

  /** Messages are a function of the whole source; `taken`, `queued` and `left` are where they are. */
  ghost predicate Split(cap: nat, original: seq<byte>, fails: bool,
    taken: seq<Message>, queued: seq<Message>, left: seq<Message>)
  {
    taken + (queued + left) == Messages(cap, original, fails)
  }

  lemma TakeOne(cap: nat, original: seq<byte>, fails: bool,
    taken: seq<Message>, queued: seq<Message>, left: seq<Message>)
    requires queued != [] && Split(cap, original, fails, taken, queued, left)
    ensures Split(cap, original, fails, taken + [queued[0]], queued[1..], left)
    ensures Bytes(taken + [queued[0]]) == Bytes(taken) + (if queued[0].Line? then queued[0].bytes else [])
  {
    Assoc([queued[0]], queued[1..], left);
    Assoc(taken, [queued[0]], queued[1..] + left);
    assert [queued[0]] + queued[1..] == queued;
    OneMore(queued[0], []);
    assert [queued[0]] + [] == [queued[0]];
    BytesConcat(taken, [queued[0]]);
  }

  lemma QueueOne(cap: nat, original: seq<byte>, fails: bool,
    taken: seq<Message>, queued: seq<Message>, m: Message, left: seq<Message>)
    requires Split(cap, original, fails, taken, queued, [m] + left)
    ensures Split(cap, original, fails, taken, queued + [m], left)
  {
    Assoc(queued, [m], left);
  }

  /** Lines are never empty, so an empty read means the end. */
  lemma {:induction false} QueuedIsNonempty(cap: nat, s: seq<byte>, fails: bool,
    taken: seq<Message>, left: seq<Message>)
    requires taken + left == Messages(cap, s, fails) && left != [] && left[0].Line?
    ensures left[0].bytes != []
    decreases |s|
  {
    if taken == [] {
      assert taken + left == left;
      HeadPasses(cap, s, fails, left, []);
    } else {
      assert (taken + left)[0] == taken[0];
      if !taken[0].Line? {
        ErrorComesLast(cap, s, fails, taken, left);
      }
      HeadPasses(cap, s, fails, taken, left);
      QueuedIsNonempty(cap, s[|FirstLine(s, NEWLINE)|..], fails, taken[1..], left);
    }
  }

  /** A message in the queue, with the bytes read for it; the text of a size error quotes them. */
  datatype Sent = Sent(message: Message, read: nat)

  function MessagesOf(sent: seq<Sent>): seq<Message> {
    if sent == [] then [] else [sent[0].message] + MessagesOf(sent[1..])
  }

  /** A size error quotes more bytes than the cap. */
  predicate QuotesOverrun(cap: nat, sent: seq<Sent>) {
    sent == [] || ((sent[0].message == TooLong ==> sent[0].read > cap) && QuotesOverrun(cap, sent[1..]))
  }

  lemma {:induction false} Push(cap: nat, sent: seq<Sent>, last: Sent)
    requires QuotesOverrun(cap, sent) && (last.message == TooLong ==> last.read > cap)
    ensures MessagesOf(sent + [last]) == MessagesOf(sent) + [last.message] && QuotesOverrun(cap, sent + [last])
  {
    if sent == [] {
      assert sent + [last] == [last];
      assert [last][1..] == [];
    } else {
      assert (sent + [last])[1..] == sent[1..] + [last];
      Push(cap, sent[1..], last);
      Assoc([sent[0].message], MessagesOf(sent[1..]), [last.message]);
    }
  }

  /** The next message for the queue, if any. */
  method NextMessage(source: Source, cap: nat) returns (m: Option<Sent>)
    requires source.Valid()
    modifies source
    ensures source.Valid()
    ensures var messages := Messages(cap, old(source.Rest()), source.fails);
      && (m.None? ==> messages == [])
      && (m.Some? ==>
          && messages == [m.value.message]
            + (if m.value.message.Line? then Messages(cap, source.Rest(), source.fails) else [])
          && (m.value.message == TooLong ==> m.value.read > cap))
  {
    ghost var rest := source.Rest();
    var r, read := ReadLineCapped(source, cap);
    NextReadIs(cap, rest, source.fails);
    match r
    case Error(e) =>
      m := Some(Sent(e, read));
      assert [e] + [] == [e];
    case Got(line) =>
      if line == [] {
        m := None;
      } else {
        m := Some(Sent(Line(line), read));
        assert rest[|line|..] == source.Rest();
      }
  }

  lemma TakeSent(cap: nat, original: seq<byte>, fails: bool, taken: seq<Message>, queue: seq<Sent>, left: seq<Message>)
    requires queue != [] && Split(cap, original, fails, taken, MessagesOf(queue), left)
    ensures var m := queue[0].message;
      && Split(cap, original, fails, taken + [m], MessagesOf(queue[1..]), left)
      && Bytes(taken + [m]) == Bytes(taken) + (if m.Line? then m.bytes else [])
      && (AllLines(taken) && AllLines(MessagesOf(queue)) ==> AllLines(taken + [m]) && AllLines(MessagesOf(queue[1..])))
      && (m.Line? ==> m.bytes != [])
      && (!m.Line? ==> taken + [m] == Messages(cap, original, fails) && !AllLines(taken + [m]))
  {
    var m, queued := queue[0].message, MessagesOf(queue);
    TakeOne(cap, original, fails, taken, queued, left);
    assert queued[1..] == MessagesOf(queue[1..]);
    AllLinesConcat(taken, [m]);
    if m.Line? {
      QueuedIsNonempty(cap, original, fails, taken, queued + left);
    } else {
      ErrorComesLast(cap, original, fails, taken + [m], queued[1..] + left);
      AllTaken(taken + [m], queued[1..] + left);
    }
  }

  datatype Poll = Pending | Ready(bytes: seq<byte>) | Failed(error: Message, read: nat)

  class LineBufferedRead {
    const cap: nat
    const source: Source
    var queue: seq<Sent>
    var done: bool
    var buf: seq<byte>
    var pos: nat
    ghost const original: seq<byte>
    ghost var taken: seq<Message>
    ghost var delivered: seq<byte>

    /** What the producer has yet to queue. */
    ghost function Left(): seq<Message>
      reads this, source
    {
      if done then [] else Messages(cap, source.Rest(), source.fails)
    }

    ghost predicate Valid()
      reads this, source
    {
      && source.Valid()
      && pos <= |buf| && (pos == |buf| ==> buf == [])
      && Split(cap, original, source.fails, taken, MessagesOf(queue), Left())
      && Bytes(taken) == delivered + buf[pos..]
      && (!done ==> AllLines(taken) && AllLines(MessagesOf(queue)))
      && QuotesOverrun(cap, queue)
    }

    constructor (source: Source)
      requires source.Valid()
      ensures Valid() && cap == MAX_LINE_SIZE && this.source == source && original == source.Rest() && delivered == []
      ensures queue == [] && !done && buf == []
    {
      cap, this.source, queue, done := MAX_LINE_SIZE, source, [], false;
      buf, pos, original, taken, delivered := [], 0, source.Rest(), [], [];
      new;
      assert taken + (MessagesOf(queue) + Left()) == Left();
    }

    /** One round of the producer: it queues a line, or an error and stops. */
    method Produce()
      requires Valid()
      modifies this`queue, this`done, source
      ensures Valid()
    {
      if done { return; }
      var m := NextMessage(source, cap);
      if m.None? {
        done := true;
        return;
      }
      ghost var left := if m.value.message.Line? then Messages(cap, source.Rest(), source.fails) else [];
      QueueOne(cap, original, source.fails, taken, MessagesOf(queue), m.value.message, left);
      Push(cap, queue, m.value);
      AllLinesConcat(MessagesOf(queue), [m.value.message]);
      queue := queue + [m.value];
      done := !m.value.message.Line?;
    }

    /** The next bytes for a buffer of `size`. Whatever the interleaving with the producer, what has been
        delivered is a prefix of the source; a pause comes only between lines, or after everything;
        an end comes only after all lines that precede an error. */
    method PollRead(size: nat) returns (r: Poll)
      requires Valid()
      modifies this
      ensures Valid() && done == old(done)
      ensures delivered == old(delivered) + (if r.Ready? then r.bytes else []) && (r.Ready? ==> |r.bytes| <= size)
      ensures delivered <= original
      ensures r.Pending? ==> StopsBetweenLines(delivered, original)
      ensures r == Ready([]) && size > 0 ==>
        delivered == Bytes(Messages(cap, original, source.fails)) && queue == [] && done
      ensures r.Failed? ==>
        delivered == Bytes(Messages(cap, original, source.fails)) && !AllLines(Messages(cap, original, source.fails))
      ensures r.Failed? && r.error == TooLong ==> r.read > cap
    {
      if pos < |buf| {
        r := ServeBuffered(size);
      } else if queue != [] {
        r := ServeQueued(size);
      } else if done {
        r := Ready([]);
        AllTaken(taken, MessagesOf(queue) + Left());
      } else {
        r := Pending;
        TakenEndsLine(cap, original, source.fails, taken, MessagesOf(queue) + Left());
      }
      TakenIsPrefix(cap, original, source.fails, taken, MessagesOf(queue) + Left());
    }

    /** The rest of the current line. */
    method ServeBuffered(size: nat) returns (r: Poll)
      requires Valid() && pos < |buf|
      modifies this`buf, this`pos, this`delivered
      ensures Valid() && r.Ready? && |r.bytes| <= size && (size > 0 ==> r.bytes != [])
        && delivered == old(delivered) + r.bytes
    {
      var n := if |buf| - pos <= size then |buf| - pos else size;
      r := Ready(buf[pos..pos + n]);
      assert buf[pos..] == buf[pos..pos + n] + buf[pos + n..];
      Assoc(delivered, r.bytes, buf[pos + n..]);
      delivered := delivered + r.bytes;
      pos := pos + n;
      if pos >= |buf| {
        buf, pos := [], 0;
      }
    }

    /** The start of the next line, or the error behind the last one. */
    method ServeQueued(size: nat) returns (r: Poll)
      requires Valid() && buf == [] && queue != []
      modifies this`buf, this`pos, this`queue, this`taken, this`delivered
      ensures Valid() && delivered == old(delivered) + (if r.Ready? then r.bytes else [])
      ensures r.Ready? ==> |r.bytes| <= size && (size > 0 ==> r.bytes != [])
      ensures r.Failed? ==>
        delivered == Bytes(Messages(cap, original, source.fails)) && !AllLines(Messages(cap, original, source.fails))
      ensures !r.Pending? && (r.Failed? && r.error == TooLong ==> r.read > cap)
    {
      var m := queue[0];
      TakeSent(cap, original, source.fails, taken, queue, Left());
      taken, queue := taken + [m.message], queue[1..];
      if m.message.Line? {
        var line := m.message.bytes;
        var n := if |line| <= size then |line| else size;
        assert line == line[..n] + line[n..];
        Assoc(delivered, line[..n], line[n..]);
        r := Ready(line[..n]);
        delivered := delivered + r.bytes;
        if n < |line| {
          buf, pos := line, n;
        }
      } else {
        r := Failed(m.message, m.read);
      }
    }
  }

  lemma AllTaken(taken: seq<Message>, left: seq<Message>)
    requires left == []
    ensures taken + left == taken
  {
  }

  lemma {:induction false} AllLinesConcat(a: seq<Message>, b: seq<Message>)
    ensures AllLines(a + b) <==> AllLines(a) && AllLines(b)
  {
    if a == [] {
      assert a + b == b;
    } else {
      assert (a + b)[1..] == a[1..] + b;
      AllLinesConcat(a[1..], b);
    }
  }

  lemma TakenIsPrefix(cap: nat, s: seq<byte>, fails: bool, taken: seq<Message>, left: seq<Message>)
    requires taken + left == Messages(cap, s, fails)
    ensures Bytes(taken) <= s
  {
    MessagesArePrefix(cap, s, fails);
    BytesConcat(taken, left);
  }

  datatype Event = Produces | Reads(size: nat)

  predicate IsEnd(poll: Poll, size: nat) { poll == Ready([]) && size > 0 }

  /** Any interleaving of the producer with reads of any sizes, over any chunking: the output is a prefix
      of the source, all its lines before an error at the end, and never cut inside a line by a pause. */
  method Drive(chunks: seq<seq<byte>>, fails: bool, schedule: seq<Event>)
    returns (output: seq<byte>, last: Option<Poll>, size: nat)
    requires forall i :: 0 <= i < |chunks| ==> chunks[i] != []
    ensures output <= Joined(chunks)
    ensures last == Some(Pending) ==> StopsBetweenLines(output, Joined(chunks))
    ensures last.Some? && IsEnd(last.value, size) ==> output == Bytes(Messages(MAX_LINE_SIZE, Joined(chunks), fails))
    ensures last.Some? && IsEnd(last.value, size) && !fails && !HasLongLine(MAX_LINE_SIZE, Joined(chunks))
      ==> output == Joined(chunks)
  {
    var source := new Source(chunks, fails);
    var reader := new LineBufferedRead(source);
    output, last, size := [], None, 0;
    for i := 0 to |schedule|
      invariant reader.Valid() && reader.delivered == output <= Joined(chunks)
      invariant last == Some(Pending) ==> StopsBetweenLines(output, Joined(chunks))
      invariant last.Some? && IsEnd(last.value, size)
        ==> output == Bytes(Messages(MAX_LINE_SIZE, Joined(chunks), fails))
    {
      match schedule[i]
      case Produces => reader.Produce();
      case Reads(n) =>
        var poll := reader.PollRead(n);
        if poll.Ready? {
          output := output + poll.bytes;
        }
        last, size := Some(poll), n;
    }
    AllArrives(MAX_LINE_SIZE, Joined(chunks));
  }
}
