/** Cutting text into lines, as `str::split_inclusive('\n')` and `str::lines` do. */
module Lines {
  import opened Text

  /** What comes first in `s`, up to and including its first `newline`; all of it if there is none. */
  function FirstLine<T(==)>(s: seq<T>, newline: T): (r: seq<T>)
    ensures |r| <= |s| && (s != [] ==> r != [])
  {
    if s == [] then [] else if s[0] == newline then [s[0]] else [s[0]] + FirstLine(s[1..], newline)
  }

  predicate IsPlain<T(==)>(s: seq<T>, newline: T) { forall i :: 0 <= i < |s| ==> s[i] != newline }

  lemma {:induction false} FirstLineIs<T>(s: seq<T>, newline: T)
    ensures var line := FirstLine(s, newline);
      s == line + s[|line|..] && (line == s || line[|line| - 1] == newline)
  {
    if s != [] && s[0] != newline {
      FirstLineIs(s[1..], newline);
    }
  }

  lemma {:induction false} FirstLineHasOneNewline<T>(s: seq<T>, newline: T)
    ensures forall j :: 0 <= j < |FirstLine(s, newline)| - 1 ==> s[j] != newline
  {
    if s != [] && s[0] != newline {
      FirstLineHasOneNewline(s[1..], newline);
    }
  }

  lemma {:induction false} PlainThenMore<T>(plain: seq<T>, more: seq<T>, newline: T)
    requires IsPlain(plain, newline)
    ensures FirstLine(plain + more, newline) == plain + FirstLine(more, newline)
  {
    if plain == [] {
      assert plain + more == more;
    } else {
      assert (plain + more)[1..] == plain[1..] + more;
      PlainThenMore(plain[1..], more, newline);
      Assoc([plain[0]], plain[1..], FirstLine(more, newline));
      assert [plain[0]] + plain[1..] == plain;
    }
  }

  /** The lines of a text, each with its newline; only the last may lack one. */
  function SplitInclusive(s: string): seq<string>
    decreases |s|
  {
    if s == [] then [] else [FirstLine(s, '\n')] + SplitInclusive(s[|FirstLine(s, '\n')|..])
  }

  /** Splitting loses nothing. */
  lemma {:induction false} JoinedSplit(s: string)
    ensures Joined(SplitInclusive(s)) == s
    decreases |s|
  {
    if s != [] {
      FirstLineIs(s, '\n');
      var rest := s[|FirstLine(s, '\n')|..];
      JoinedSplit(rest);
      assert SplitInclusive(s)[1..] == SplitInclusive(rest);
    }
  }

  /** A complete line in front of a text is its first line. */
  lemma SplitLine(plain: string, rest: string)
    requires IsPlain(plain, '\n')
    ensures SplitInclusive(plain + ("\n" + rest)) == [plain + "\n"] + SplitInclusive(rest)
  {
    var s := plain + ("\n" + rest);
    PlainThenMore(plain, "\n" + rest, '\n');
    assert FirstLine("\n" + rest, '\n') == "\n";
    assert s[|plain| + 1..] == rest;
  }

  /** A line without its line ending; a lone carriage return stays. */
  function WithoutEnding(line: string): string {
    if line == [] || line[|line| - 1] != '\n' then line
    else
      var body := line[..|line| - 1];
      if body != [] && body[|body| - 1] == '\r' then body[..|body| - 1] else body
  }

  lemma EndingIsRemoved(plain: string)
    requires IsPlain(plain, '\n')
    ensures WithoutEnding(plain) == plain && WithoutEnding(plain + "\r" + "\n") == plain
    ensures plain == [] || plain[|plain| - 1] != '\r' ==> WithoutEnding(plain + "\n") == plain
  {
    assert (plain + "\n")[..|plain|] == plain;
    assert (plain + "\r" + "\n")[..|plain| + 1] == plain + "\r";
    assert (plain + "\r")[..|plain|] == plain;
  }

  lemma SplitPlain(plain: string)
    requires plain != [] && IsPlain(plain, '\n')
    ensures SplitInclusive(plain) == [plain]
  {
    PlainThenMore(plain, [], '\n');
    assert plain + [] == plain;
    assert plain[|plain|..] == [];
  }

  predicate IsComplete(line: string) { line != [] && line[|line| - 1] == '\n' && IsPlain(line[..|line| - 1], '\n') }

  /** A list of lines as splitting produces it: all complete, but for the last perhaps. */
  predicate AreLines(lines: seq<string>) {
    lines == []
    || (|lines| == 1 && lines[0] != [] && (IsComplete(lines[0]) || IsPlain(lines[0], '\n')))
    || (IsComplete(lines[0]) && AreLines(lines[1..]))
  }

  lemma SplitComplete(line: string, rest: string)
    requires IsComplete(line)
    ensures SplitInclusive(line + rest) == [line] + SplitInclusive(rest)
  {
    var plain := line[..|line| - 1];
    assert line == plain + "\n";
    Assoc(plain, "\n", rest);
    SplitLine(plain, rest);
  }

  /** Joining lines and splitting the text again gives the lines back. */
  lemma {:induction false} SplitJoined(lines: seq<string>)
    requires AreLines(lines)
    ensures SplitInclusive(Joined(lines)) == lines
  {
    if lines != [] {
      var rest := lines[1..];
      if IsComplete(lines[0]) {
        SplitJoined(rest);
        SplitComplete(lines[0], Joined(rest));
      } else {
        assert lines[0] + [] == lines[0];
        PlainThenMore(lines[0], [], '\n');
      }
    }
  }

  predicate AllComplete(lines: seq<string>) {
    lines == [] || (IsComplete(lines[0]) && AllComplete(lines[1..]))
  }

  /** A text that ends with a newline splits into complete lines. */
  lemma {:induction false} SplitIsComplete(s: string)
    requires s == [] || s[|s| - 1] == '\n'
    ensures AllComplete(SplitInclusive(s))
    decreases |s|
  {
    if s != [] {
      FirstLineShape(s);
      SplitIsComplete(s[|FirstLine(s, '\n')|..]);
    }
  }

  lemma {:induction false} CompleteThenLines(a: seq<string>, b: seq<string>)
    requires AllComplete(a) && AreLines(b)
    ensures AreLines(a + b)
  {
    if a == [] {
      assert a + b == b;
    } else {
      assert (a + b)[1..] == a[1..] + b;
      CompleteThenLines(a[1..], b);
    }
  }

  lemma {:induction false} FirstLineShape(s: string)
    requires s != []
    ensures IsComplete(FirstLine(s, '\n')) || (IsPlain(FirstLine(s, '\n'), '\n') && FirstLine(s, '\n') == s)
  {
    if s[0] != '\n' && |s| > 1 {
      FirstLineShape(s[1..]);
      var line := FirstLine(s[1..], '\n');
      assert ([s[0]] + line)[..|line|] == [s[0]] + line[..|line| - 1];
    }
  }
}
