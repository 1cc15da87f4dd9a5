/** Strings as sequences of Unicode scalar values, with the search, replace and trim
    operations of Rust's `str` that the rest of the model is written in. */
module Text {

  datatype Option<+T> = None | Some(value: T)

  /** Concatenation is associative; stated apart so that callers need not rediscover it. */
  lemma Assoc<T>(a: seq<T>, b: seq<T>, c: seq<T>)
    ensures a + (b + c) == a + b + c
  {
  }

  /** The concatenation of all pieces. */
  function Joined<T>(pieces: seq<seq<T>>): seq<T> {
    if pieces == [] then [] else pieces[0] + Joined(pieces[1..])
  }

  lemma {:induction false} JoinedConcat<T>(a: seq<seq<T>>, b: seq<seq<T>>)
    ensures Joined(a + b) == Joined(a) + Joined(b)
  {
    if a == [] {
      assert a + b == b;
    } else {
      assert (a + b)[1..] == a[1..] + b;
      JoinedConcat(a[1..], b);
      Assoc(a[0], Joined(a[1..]), Joined(b));
    }
  }

  lemma JoinedPush<T>(pieces: seq<seq<T>>, last: seq<T>)
    ensures Joined(pieces + [last]) == Joined(pieces) + last
  {
    JoinedConcat(pieces, [last]);
    assert [last][1..] == [];
    assert last + [] == last;
  }

  /** `saturating_sub`. */
  function Saturating(a: nat, b: nat): nat { if a <= b then 0 else a - b }

  // ---------- Searching ----------

  predicate OccursAt(s: string, pat: string, i: nat) {
    i + |pat| <= |s| && s[i..i + |pat|] == pat
  }

  ghost predicate Contains(s: string, pat: string) {
    exists i: nat :: OccursAt(s, pat, i)
  }

  predicate IsFirst(s: string, pat: string, from: nat, i: nat) {
    from <= i && OccursAt(s, pat, i) && forall j: nat :: from <= j < i ==> !OccursAt(s, pat, j)
  }

  lemma {:induction false} FirstExists(s: string, pat: string, from: nat, k: nat)
    requires from <= k && OccursAt(s, pat, k)
    ensures exists i: nat :: i <= k && IsFirst(s, pat, from, i)
    decreases k
  {
    if j: nat :| from <= j < k && OccursAt(s, pat, j) {
      FirstExists(s, pat, from, j);
    } else {
      assert IsFirst(s, pat, from, k);
    }
  }

  /** Position of the first occurrence at or after `from` (`str::find`). */
  function FindFrom(s: string, pat: string, from: nat): (r: Option<nat>)
    ensures r.Some? ==> IsFirst(s, pat, from, r.value)
    ensures r.None? ==> forall j: nat :: from <= j ==> !OccursAt(s, pat, j)
  {
    if k: nat :| k <= |s| && from <= k && OccursAt(s, pat, k) then
      FirstExists(s, pat, from, k);
      var i: nat :| i <= |s| && IsFirst(s, pat, from, i);
      Some(i)
    else None
  }

  function Find(s: string, pat: string): (r: Option<nat>)
    ensures r.Some? ==> IsFirst(s, pat, 0, r.value)
    ensures r.None? <==> !Contains(s, pat)
  {
    FindFrom(s, pat, 0)
  }

  predicate IsLast(s: string, pat: string, i: nat) {
    OccursAt(s, pat, i) && forall j: nat :: i < j <= |s| ==> !OccursAt(s, pat, j)
  }

  lemma {:induction false} LastExists(s: string, pat: string, k: nat)
    requires OccursAt(s, pat, k)
    ensures exists i: nat :: i <= |s| && IsLast(s, pat, i)
    decreases |s| - k
  {
    if j: nat :| k < j <= |s| && OccursAt(s, pat, j) {
      LastExists(s, pat, j);
    } else {
      assert IsLast(s, pat, k);
    }
  }

  /** Position of the last occurrence (`str::rfind`). */
  function RFind(s: string, pat: string): (r: Option<nat>)
    ensures r.Some? ==> IsLast(s, pat, r.value)
    ensures r.None? <==> !Contains(s, pat)
  {
    if k: nat :| k <= |s| && OccursAt(s, pat, k) then
      LastExists(s, pat, k);
      var i: nat :| i <= |s| && IsLast(s, pat, i);
      Some(i)
    else None
  }

  /** A slice contains nothing the whole does not contain. */
  lemma SliceContains(s: string, i: nat, j: nat, pat: string)
    requires i <= j <= |s|
    ensures Contains(s[i..j], pat) ==> Contains(s, pat)
  {
    if Contains(s[i..j], pat) {
      var k: nat :| OccursAt(s[i..j], pat, k);
      var w := s[i..j];
      forall x | 0 <= x < |pat| ensures s[i + k..i + k + |pat|][x] == pat[x] {
        assert w[k..k + |pat|][x] == w[k + x];
      }
      assert OccursAt(s, pat, i + k);
    }
  }

  // ---------- Tags ----------

  /** A tag opens with its only `<` and holds no line break. */
  predicate IsTag(t: string) {
    |t| >= 2 && t[0] == '<' && forall k :: 1 <= k < |t| ==> t[k] != '<' && t[k] != '\n'
  }

  /** Two tags never overlap. */
  lemma TagsDoNotOverlap(s: string, t: string, i: nat, u: string, j: nat)
    requires IsTag(t) && IsTag(u)
    requires OccursAt(s, t, i) && OccursAt(s, u, j) && i < j
    ensures i + |t| <= j
  {
    assert s[j] == '<' by { assert s[j..j + |u|][0] == s[j]; }
    forall k | i < k < i + |t| ensures s[k] != '<' { assert s[i..i + |t|][k - i] == s[k]; }
  }

  /** Two tags that differ right behind the `<`. */
  predicate AreDistinct(t: string, u: string) {
    IsTag(t) && IsTag(u) && |t| > 2 && |u| > 2 && (t[1] != u[1] || t[2] != u[2])
  }

  lemma TagsApart(s: string, t: string, i: nat, u: string, j: nat)
    requires IsTag(t) && IsTag(u)
    ensures OccursAt(s, t, i) && OccursAt(s, u, j) && i < j ==> i + |t| <= j
    ensures AreDistinct(t, u) && OccursAt(s, t, i) && OccursAt(s, u, j) ==> i != j
  {
    if OccursAt(s, t, i) && OccursAt(s, u, j) {
      if i < j {
        TagsDoNotOverlap(s, t, i, u, j);
      }
      if AreDistinct(t, u) {
        assert s[i..i + |t|][1] == s[i + 1] && s[i..i + |t|][2] == s[i + 2];
        assert s[j..j + |u|][1] == s[j + 1] && s[j..j + |u|][2] == s[j + 2];
      }
    }
  }

  /** Around one tag, another occurs wholly before or wholly after, or in its place. */
  lemma OccursAround(pre: string, tag: string, rest: string, t: string, i: nat)
    requires IsTag(tag) && IsTag(t)
    ensures OccursAt(pre + tag + rest, t, i) <==>
      || OccursAt(pre, t, i)
      || (i == |pre| && OccursAt(pre + tag + rest, t, i))
      || (i >= |pre| + |tag| && OccursAt(rest, t, i - |pre| - |tag|))
  {
    var s := pre + tag + rest;
    var n := |pre| + |tag|;
    assert OccursAt(s, tag, |pre|) by { assert s[|pre|..n] == tag; }
    TagsApart(s, t, i, tag, |pre|);
    TagsApart(s, tag, |pre|, t, i);
    assert s[n..] == rest;
    if i >= n {
      ShiftOccurrence(s, n, t, i - n);
    }
    if i + |t| <= |pre| {
      assert s[i..i + |t|] == pre[i..i + |t|];
    }
  }

  lemma OtherTagOccurs(pre: string, tag: string, rest: string, t: string, i: nat)
    requires AreDistinct(tag, t)
    ensures OccursAt(pre + tag + rest, t, i) <==>
      OccursAt(pre, t, i) || (i >= |pre| + |tag| && OccursAt(rest, t, i - |pre| - |tag|))
  {
    var s := pre + tag + rest;
    OccursAround(pre, tag, rest, t, i);
    assert s[|pre|..|pre| + |tag|] == tag;
    TagsApart(s, tag, |pre|, t, i);
  }

  lemma SameTagOccurs(pre: string, tag: string, rest: string, i: nat)
    requires IsTag(tag)
    ensures OccursAt(pre + tag + rest, tag, i) <==>
      OccursAt(pre, tag, i) || i == |pre| || (i >= |pre| + |tag| && OccursAt(rest, tag, i - |pre| - |tag|))
  {
    var s := pre + tag + rest;
    OccursAround(pre, tag, rest, tag, i);
    assert s[|pre|..|pre| + |tag|] == tag;
  }

  lemma FindFirstTag(pre: string, tag: string, rest: string)
    requires IsTag(tag) && !Contains(pre, tag)
    ensures Find(pre + tag + rest, tag) == Some(|pre|)
  {
    SameTagOccurs(pre, tag, rest, |pre|);
    SameTagOccurs(pre, tag, rest, Find(pre + tag + rest, tag).value);
  }

  lemma FindLastTag(pre: string, tag: string, rest: string)
    requires IsTag(tag) && !Contains(rest, tag)
    ensures RFind(pre + tag + rest, tag) == Some(|pre|)
  {
    SameTagOccurs(pre, tag, rest, |pre|);
    SameTagOccurs(pre, tag, rest, RFind(pre + tag + rest, tag).value);
  }

  lemma FindOtherTag(pre: string, tag: string, rest: string, t: string)
    requires AreDistinct(tag, t)
    ensures Find(pre + tag + rest, t) ==
      match Find(pre, t)
      case Some(k) => Some(k)
      case None =>
        match Find(rest, t) case Some(k) => Some(|pre| + |tag| + k) case None => None
  {
    var s := pre + tag + rest;
    var f := Find(s, t);
    if f.Some? {
      OtherTagOccurs(pre, tag, rest, t, f.value);
    }
    var p, r := Find(pre, t), Find(rest, t);
    if p.Some? {
      OtherTagOccurs(pre, tag, rest, t, p.value);
    } else if r.Some? {
      OtherTagOccurs(pre, tag, rest, t, |pre| + |tag| + r.value);
    }
  }

  lemma FindBehindTag(pre: string, tag: string, rest: string, t: string)
    requires AreDistinct(tag, t)
    ensures FindFrom(pre + tag + rest, t, |pre|) ==
      match Find(rest, t) case Some(k) => Some(|pre| + |tag| + k) case None => None
  {
    var s := pre + tag + rest;
    var f := FindFrom(s, t, |pre|);
    if f.Some? {
      OtherTagOccurs(pre, tag, rest, t, f.value);
    }
    var r := Find(rest, t);
    if r.Some? {
      OtherTagOccurs(pre, tag, rest, t, |pre| + |tag| + r.value);
    }
  }

  lemma BeforeFirst(s: string, t: string, i: nat)
    requires |t| > 0 && IsFirst(s, t, 0, i)
    ensures !Contains(s[..i], t) && s == s[..i] + t + s[i + |t|..]
  {
    forall j: nat | OccursAt(s[..i], t, j) ensures false {
      assert s[j..j + |t|] == s[..i][j..j + |t|];
      assert OccursAt(s, t, j);
    }
  }

  lemma BehindLast(s: string, t: string, i: nat)
    requires |t| > 0 && IsLast(s, t, i)
    ensures !Contains(s[i + |t|..], t)
  {
    var tail := s[i + |t|..];
    forall j: nat | OccursAt(tail, t, j) ensures false {
      ShiftOccurrence(s, i + |t|, t, j);
    }
  }

  lemma CloseFound(s: string, pre: string, open: string, a: string, close: string, post: string)
    requires AreDistinct(open, close) && !Contains(a, close) && s == pre + open + (a + close + post)
    ensures FindFrom(s, close, |pre|) == Some(|pre| + |open| + |a|)
    ensures s[..|pre|] == pre && s[|pre| + |open| + |a| + |close|..] == post
  {
    FindBehindTag(pre, open, a + close + post, close);
    FindFirstTag(a, close, post);
  }

  // ---------- Replacing ----------

  /** Left-to-right replacement of non-overlapping occurrences (`str::replace`). */
  function Replace(s: string, pat: string, rep: string): string
    requires |pat| > 0
  {
    if |s| < |pat| then s
    else if pat <= s then rep + Replace(s[|pat|..], pat, rep)
    else [s[0]] + Replace(s[1..], pat, rep)
  }

  lemma ShiftOccurrence(s: string, d: nat, pat: string, k: nat)
    requires d <= |s|
    ensures OccursAt(s[d..], pat, k) <==> OccursAt(s, pat, k + d)
  {
    if k + d + |pat| <= |s| {
      assert s[d..][k..k + |pat|] == s[k + d..k + d + |pat|];
    }
  }

  lemma AbsentFromTail(s: string, pat: string)
    requires s != [] && !Contains(s, pat)
    ensures !Contains(s[1..], pat)
  {
    SliceContains(s, 1, |s|, pat);
    assert s[1..|s|] == s[1..];
  }

  lemma {:induction false} ReplaceAbsent(s: string, pat: string, rep: string)
    requires |pat| > 0 && !Contains(s, pat)
    ensures Replace(s, pat, rep) == s
  {
    if |s| >= |pat| {
      if pat <= s {
        assert OccursAt(s, pat, 0);
        assert false;
      }
      AbsentFromTail(s, pat);
      ReplaceAbsent(s[1..], pat, rep);
    }
  }

  lemma {:induction false} ReplaceLength(s: string, pat: string, rep: string)
    requires |rep| < |pat|
    ensures |Replace(s, pat, rep)| <= |s|
    ensures Contains(s, pat) ==> |Replace(s, pat, rep)| < |s|
  {
    if |s| < |pat| {
    } else if pat <= s {
      ReplaceLength(s[|pat|..], pat, rep);
    } else {
      ReplaceLength(s[1..], pat, rep);
      if Contains(s, pat) {
        var i: nat :| OccursAt(s, pat, i);
        assert i != 0;
        ShiftOccurrence(s, 1, pat, i - 1);
        assert Contains(s[1..], pat);
      }
    }
  }

  /** Replacement text that starts as the pattern does cannot change what precedes it:
      a prefix of the result that avoids that first character was there before. */
  lemma {:induction false} ReplaceKeepsPrefix(s: string, pat: string, rep: string, u: string)
    requires |pat| > 0 && |rep| > 0 && pat[0] == rep[0] && pat[0] !in u
    requires u <= Replace(s, pat, rep)
    ensures u <= s
  {
    assert u != [] ==> u[0] != rep[0];
    assert |pat| <= |s| && pat <= s ==> Replace(s, pat, rep)[0] == rep[0];
    if u != [] && |s| >= |pat| {
      var r := Replace(s[1..], pat, rep);
      assert Replace(s, pat, rep)[1..] == r;
      assert u[1..] <= r;
      ReplaceKeepsPrefix(s[1..], pat, rep, u[1..]);
      assert u[0] == s[0];
      assert u == [s[0]] + u[1..];
      assert s == [s[0]] + s[1..];
    }
  }

  /** `t` cannot start inside the replacement text, whatever follows it. */
  predicate NeverStartsIn(rep: string, t: string)
    requires |t| > 0
  {
    forall i :: 0 <= i < |rep| ==>
      rep[i] != t[0] || (i + 1 < |rep| && |t| > 1 && rep[i + 1] != t[1])
  }

  /** What occurs in `rep + rest` and cannot start in `rep` occurs in `rest`. */
  lemma OccursAfter(rep: string, rest: string, t: string, i: nat)
    requires |t| > 0 && NeverStartsIn(rep, t) && OccursAt(rep + rest, t, i)
    ensures i >= |rep| && OccursAt(rest, t, i - |rep|)
  {
    var r := rep + rest;
    assert r[i] == t[0] by { assert r[i..i + |t|][0] == r[i]; }
    assert |t| > 1 ==> r[i + 1] == t[1] by { assert |t| > 1 ==> r[i..i + |t|][1] == r[i + 1]; }
    assert forall k {:trigger rep[k]} :: 0 <= k < |rep| ==>
      r[k] == rep[k] && (k + 1 < |rep| ==> r[k + 1] == rep[k + 1]);
    assert rest[i - |rep|..i - |rep| + |t|] == r[i..i + |t|];
  }

  lemma OccursFirst(c: char, rest: string, t: string)
    requires |t| > 0
    ensures OccursAt([c] + rest, t, 0) <==> t[0] == c && t[1..] <= rest
  {
    var r := [c] + rest;
    if OccursAt(r, t, 0) {
      assert r[0..|t|][0] == r[0];
      assert rest[..|t| - 1] == r[0..|t|][1..];
    }
    if t[0] == c && t[1..] <= rest {
      assert r[0..|t|] == [c] + rest[..|t| - 1];
    }
  }

  lemma OccursInRest(c: char, rest: string, t: string, i: nat)
    requires i > 0 && OccursAt([c] + rest, t, i)
    ensures OccursAt(rest, t, i - 1)
  {
    assert ([c] + rest)[1..] == rest;
    ShiftOccurrence([c] + rest, 1, t, i - 1);
  }

  /** `t` occurs at `j`, and not as a match of the pattern. */
  predicate OccursApart(s: string, pat: string, t: string, j: nat) {
    OccursAt(s, t, j) && !OccursAt(s, pat, j)
  }

  lemma ApartInTail(s: string, d: nat, pat: string, t: string, k: nat)
    requires d <= |s| && OccursApart(s[d..], pat, t, k)
    ensures OccursApart(s, pat, t, k + d)
  {
    ShiftOccurrence(s, d, t, k);
    ShiftOccurrence(s, d, pat, k);
  }

  lemma ApartAtStart(s: string, pat: string, rep: string, t: string)
    requires |pat| > 0 && |rep| > 0 && pat[0] == rep[0]
    requires |t| > 0 && pat[0] !in t[1..] && s != [] && !(pat <= s)
    requires OccursAt([s[0]] + Replace(s[1..], pat, rep), t, 0)
    ensures OccursApart(s, pat, t, 0)
  {
    OccursFirst(s[0], Replace(s[1..], pat, rep), t);
    ReplaceKeepsPrefix(s[1..], pat, rep, t[1..]);
    assert s == [s[0]] + s[1..];
    OccursFirst(s[0], s[1..], t);
  }

  /** Every occurrence of `t` in the result was there before, and not as a match of the pattern. */
  lemma {:induction false} ReplaceOrigin(s: string, pat: string, rep: string, t: string, i: nat) returns (j: nat)
    requires |pat| > 0 && |rep| > 0 && pat[0] == rep[0]
    requires |t| > 0 && pat[0] !in t[1..] && NeverStartsIn(rep, t)
    requires OccursAt(Replace(s, pat, rep), t, i)
    ensures OccursApart(s, pat, t, j)
  {
    if |s| < |pat| {
      j := i;
    } else if pat <= s {
      var rest := s[|pat|..];
      OccursAfter(rep, Replace(rest, pat, rep), t, i);
      var k := ReplaceOrigin(rest, pat, rep, t, i - |rep|);
      ApartInTail(s, |pat|, pat, t, k);
      j := k + |pat|;
    } else if i > 0 {
      var rest := s[1..];
      OccursInRest(s[0], Replace(rest, pat, rep), t, i);
      var k := ReplaceOrigin(rest, pat, rep, t, i - 1);
      ApartInTail(s, 1, pat, t, k);
      j := k + 1;
    } else {
      ApartAtStart(s, pat, rep, t);
      j := 0;
    }
  }

  /** Replacement creates no occurrence of `t`, and leaves none when `t` is the pattern. */
  lemma ReplaceCreatesNone(s: string, pat: string, rep: string, t: string)
    requires |pat| > 0 && |rep| > 0 && pat[0] == rep[0]
    requires |t| > 0 && pat[0] !in t[1..] && NeverStartsIn(rep, t)
    requires t == pat || !Contains(s, t)
    ensures !Contains(Replace(s, pat, rep), t)
  {
    forall i: nat | OccursAt(Replace(s, pat, rep), t, i) ensures false {
      var j := ReplaceOrigin(s, pat, rep, t, i);
    }
  }

  // ---------- Trimming ----------

  /** Unicode White_Space, as `char::is_whitespace` tests it. */
  predicate IsSpace(c: char) {
    var n := c as int;
    || 9 <= n <= 13 || n == 0x20 || n == 0x85 || n == 0xA0 || n == 0x1680
    || 0x2000 <= n <= 0x200A || n == 0x2028 || n == 0x2029 || n == 0x202F || n == 0x205F || n == 0x3000
  }

  function TrimStart(s: string): string {
    if s != [] && IsSpace(s[0]) then TrimStart(s[1..]) else s
  }

  function TrimEnd(s: string): string {
    if s != [] && IsSpace(s[|s| - 1]) then TrimEnd(s[..|s| - 1]) else s
  }

  lemma {:induction false} TrimStartIsSuffix(s: string)
    ensures var r := TrimStart(s);
      (r == [] || !IsSpace(r[0])) && |r| <= |s| && r == s[|s| - |r|..] && (s != [] && !IsSpace(s[0]) ==> r == s)
  {
    if s != [] && IsSpace(s[0]) {
      TrimStartIsSuffix(s[1..]);
    }
  }

  lemma {:induction false} TrimEndIsPrefix(s: string)
    ensures var r := TrimEnd(s);
      (r == [] || !IsSpace(r[|r| - 1])) && r <= s && (s != [] && !IsSpace(s[|s| - 1]) ==> r == s)
  {
    if s != [] && IsSpace(s[|s| - 1]) {
      TrimEndIsPrefix(s[..|s| - 1]);
    }
  }

  function Trim(s: string): string {
    TrimEnd(TrimStart(s))
  }

  predicate IsTrimmed(s: string) {
    s == [] || (!IsSpace(s[0]) && !IsSpace(s[|s| - 1]))
  }

  lemma TrimIsTrimmed(s: string)
    ensures IsTrimmed(Trim(s)) && |Trim(s)| <= |s|
    ensures IsTrimmed(s) || |Trim(s)| == |s| ==> Trim(s) == s
  {
    TrimStartIsSuffix(s);
    TrimEndIsPrefix(TrimStart(s));
  }

  lemma {:induction false} TrimStartKeeps(s: string, i: nat) returns (k: nat)
    requires i < |s| && !IsSpace(s[i])
    ensures k < |TrimStart(s)| && TrimStart(s)[k] == s[i]
  {
    if IsSpace(s[0]) {
      k := TrimStartKeeps(s[1..], i - 1);
    } else {
      k := i;
    }
  }

  lemma {:induction false} TrimEndKeeps(s: string, i: nat)
    requires i < |s| && !IsSpace(s[i])
    ensures TrimEnd(s) != []
  {
    if IsSpace(s[|s| - 1]) {
      TrimEndKeeps(s[..|s| - 1], i);
    }
  }

  /** A text with a visible character is not trimmed away. */
  lemma TrimKeepsVisible(s: string, i: nat)
    requires i < |s| && !IsSpace(s[i])
    ensures Trim(s) != []
  {
    var k := TrimStartKeeps(s, i);
    TrimEndKeeps(TrimStart(s), k);
  }

  lemma TrimKeepsAbsent(s: string, pat: string)
    requires !Contains(s, pat)
    ensures !Contains(Trim(s), pat)
  {
    var a, b := TrimStart(s), Trim(s);
    TrimStartIsSuffix(s);
    TrimEndIsPrefix(a);
    var i := |s| - |a|;
    assert b == s[i..i + |b|];
    SliceContains(s, i, i + |b|, pat);
  }

  /** White space around a text is what trimming removes. */
  lemma TrimPadded(pre: string, s: string, post: string)
    requires forall c :: c in pre || c in post ==> IsSpace(c)
    ensures Trim(pre + s + post) == Trim(s)
  {
    TrimStartPadded(pre, s + post);
    Assoc(pre, s, post);
    TrimStartSplit(s, post);
    if TrimStart(s) == [] {
      AllSpaceTrims(post);
    } else {
      TrimEndPadded(TrimStart(s), post);
    }
  }

  lemma {:induction false} TrimStartPadded(pre: string, s: string)
    requires forall c :: c in pre ==> IsSpace(c)
    ensures TrimStart(pre + s) == TrimStart(s)
  {
    if pre == [] {
      assert pre + s == s;
    } else {
      assert pre[0] in pre;
      assert (pre + s)[1..] == pre[1..] + s;
      TrimStartPadded(pre[1..], s);
    }
  }

  lemma {:induction false} AllSpaceTrims(s: string)
    requires forall c :: c in s ==> IsSpace(c)
    ensures TrimStart(s) == []
  {
    if s != [] {
      assert s[0] in s;
      AllSpaceTrims(s[1..]);
    }
  }

  lemma {:induction false} TrimStartSplit(s: string, post: string)
    ensures TrimStart(s + post) == if TrimStart(s) == [] then TrimStart(post) else TrimStart(s) + post
  {
    if s == [] {
      assert s + post == post;
    } else if IsSpace(s[0]) {
      assert (s + post)[1..] == s[1..] + post;
      TrimStartSplit(s[1..], post);
    }
  }

  lemma {:induction false} TrimEndPadded(s: string, post: string)
    requires forall c :: c in post ==> IsSpace(c)
    ensures TrimEnd(s + post) == TrimEnd(s)
  {
    if post == [] {
      assert s + post == s;
    } else {
      var n := |post| - 1;
      assert post[n] in post;
      assert (s + post)[..|s + post| - 1] == s + post[..n];
      TrimEndPadded(s, post[..n]);
    }
  }

  lemma {:induction false} TrimEndSplit(s: string, post: string)
    ensures TrimEnd(s + post) == if TrimEnd(post) == [] then TrimEnd(s) else s + TrimEnd(post)
  {
    if post == [] {
      assert s + post == s;
    } else if IsSpace(post[|post| - 1]) {
      assert (s + post)[..|s + post| - 1] == s + post[..|post| - 1];
      TrimEndSplit(s, post[..|post| - 1]);
    }
  }

  /** The two ends can be trimmed in either order. */
  lemma {:induction false} TrimCommutes(s: string)
    ensures TrimStart(TrimEnd(s)) == Trim(s)
  {
    if s != [] && IsSpace(s[0]) {
      TrimCommutes(s[1..]);
      assert s == [s[0]] + s[1..];
      TrimEndSplit([s[0]], s[1..]);
      var rest := TrimEnd(s[1..]);
      assert rest != [] ==> ([s[0]] + rest)[1..] == rest;
    } else {
      TrimEndIsPrefix(s);
    }
  }

  // ---------- Decimal numbers ----------

  predicate IsDigit(c: char) { '0' as int <= c as int <= '9' as int }

  function DigitValue(c: char): nat
    requires IsDigit(c)
  {
    c as int - '0' as int
  }

  function Digit(d: nat): (c: char)
    requires d < 10
    ensures IsDigit(c) && DigitValue(c) == d
  {
    ('0' as int + d) as char
  }

  /** Decimal rendering without leading zeros. */
  function Decimal(n: nat): (s: string)
    ensures |s| > 0 && forall i :: 0 <= i < |s| ==> IsDigit(s[i])
  {
    if n < 10 then [Digit(n)] else Decimal(n / 10) + [Digit(n % 10)]
  }

  function DigitsValue(s: string): nat
    requires forall i :: 0 <= i < |s| ==> IsDigit(s[i])
  {
    if s == [] then 0
    else
      10 * DigitsValue(s[..|s| - 1]) + DigitValue(s[|s| - 1])
  }

  lemma {:induction false} DecimalRoundTrip(n: nat)
    ensures DigitsValue(Decimal(n)) == n
  {
    if n >= 10 {
      DecimalRoundTrip(n / 10);
      assert Decimal(n)[..|Decimal(n)| - 1] == Decimal(n / 10);
    }
  }
}
