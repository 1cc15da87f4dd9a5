/** An arena string interner: byte strings in one buffer, found again through a hash table that maps
    a hash to all ids with that hash. Nothing is assumed of the hash function. */
module Interner {
  import opened Text
  import opened Utf8

  const U32: nat := 0x1_0000_0000
  const U16: nat := 0x1_0000

  type Hash = seq<byte> -> nat

  datatype Span = Span(start: nat, len: nat)

  datatype Store = Store(arena: seq<byte>, lookup: map<nat, seq<nat>>, offsets: seq<Span>)

  const EMPTY := Store([], map[], [])

  function Slice(arena: seq<byte>, span: Span): Option<seq<byte>> {
    if span.start + span.len <= |arena| then Some(arena[span.start..span.start + span.len]) else None
  }

  function GetBytes(st: Store, id: nat): Option<seq<byte>> {
    if id < |st.offsets| then Slice(st.arena, st.offsets[id]) else None
  }

  function Bucket(lookup: map<nat, seq<nat>>, h: nat): seq<nat> {
    if h in lookup then lookup[h] else []
  }

  function FirstMatch(st: Store, ids: seq<nat>, s: seq<byte>): Option<nat> {
    if ids == [] then None
    else if GetBytes(st, ids[0]) == Some(s) then Some(ids[0])
    else FirstMatch(st, ids[1..], s)
  }

  function GetBytesId(hash: Hash, st: Store, s: seq<byte>): Option<nat> {
    FirstMatch(st, Bucket(st.lookup, hash(s)), s)
  }

  function Push(lookup: map<nat, seq<nat>>, h: nat, id: nat): map<nat, seq<nat>> {
    lookup[h := Bucket(lookup, h) + [id]]
  }

  /** A new entry, with the narrowing casts of start, length and id. */
  function Append(hash: Hash, st: Store, s: seq<byte>): Store {
    Store(st.arena + s, Push(st.lookup, hash(s), |st.offsets| % U32), st.offsets + [Span(|st.arena| % U32, |s| % U16)])
  }

  function Intern(hash: Hash, st: Store, s: seq<byte>): (Store, nat) {
    match GetBytesId(hash, st, s)
    case Some(id) => (st, id)
    case None => (Append(hash, st, s), |st.offsets| % U32)
  }

  // ---------- The table an interner stands for ----------

  ghost predicate InRange(st: Store) {
    forall id :: 0 <= id < |st.offsets| ==> GetBytes(st, id).Some? && st.offsets[id].len < U16
  }

  function TextOf(st: Store, id: nat): seq<byte>
    requires InRange(st) && id < |st.offsets|
  {
    GetBytes(st, id).value
  }

  ghost predicate Distinct(st: Store)
    requires InRange(st)
  {
    forall i, j :: 0 <= i < |st.offsets| && 0 <= j < |st.offsets| && TextOf(st, i) == TextOf(st, j) ==> i == j
  }

  /** The buckets hold exactly the ids, each under the hash of its bytes. */
  ghost predicate Indexed(hash: Hash, st: Store)
    requires InRange(st)
  {
    && (forall id :: 0 <= id < |st.offsets| ==> id in Bucket(st.lookup, hash(TextOf(st, id))))
    && (forall h, id :: id in Bucket(st.lookup, h) ==> id < |st.offsets|)
  }

  ghost predicate Good(hash: Hash, st: Store) {
    InRange(st) && Distinct(st) && Indexed(hash, st)
  }

  /** The id-to-bytes table, which is injective in a good store. */
  ghost function Table(st: Store): (t: seq<seq<byte>>)
    requires InRange(st)
    ensures |t| == |st.offsets| && forall id :: 0 <= id < |t| ==> t[id] == TextOf(st, id)
  {
    seq(|st.offsets|, id requires 0 <= id < |st.offsets| => TextOf(st, id))
  }

  lemma {:induction false} FirstMatchIs(st: Store, ids: seq<nat>, s: seq<byte>)
    ensures match FirstMatch(st, ids, s)
      case Some(id) => id in ids && GetBytes(st, id) == Some(s)
      case None => forall id :: id in ids ==> GetBytes(st, id) != Some(s)
  {
    if ids != [] && GetBytes(st, ids[0]) != Some(s) {
      FirstMatchIs(st, ids[1..], s);
    }
  }

  /** Lookup refines the table, collisions included: it finds `id` exactly when `id` stands for `s`. */
  lemma LookupIsTable(hash: Hash, st: Store, s: seq<byte>)
    requires Good(hash, st)
    ensures forall id: nat :: GetBytesId(hash, st, s) == Some(id) <==> id < |st.offsets| && TextOf(st, id) == s
    ensures GetBytesId(hash, st, s).None? <==> s !in Table(st)
  {
    var ids := Bucket(st.lookup, hash(s));
    FirstMatchIs(st, ids, s);
    forall id: nat | id < |st.offsets| && TextOf(st, id) == s ensures GetBytesId(hash, st, s) == Some(id) {
      assert id in ids;
      var found := GetBytesId(hash, st, s).value;
      assert found < |st.offsets| && TextOf(st, found) == s;
    }
    if s in Table(st) {
      var id :| 0 <= id < |Table(st)| && Table(st)[id] == s;
      assert TextOf(st, id) == s;
    }
  }

  /** The arena stays within 2^32 bytes and the id fits 32 bits. */
  predicate HasRoom(st: Store, s: seq<byte>) { |st.arena| + |s| <= U32 && |st.offsets| < U32 }

  lemma AppendKeepsOld(hash: Hash, st: Store, s: seq<byte>, id: nat)
    requires InRange(st) && id < |st.offsets|
    ensures GetBytes(Append(hash, st, s), id) == GetBytes(st, id)
  {
    var span := st.offsets[id];
    assert GetBytes(st, id).Some?;
    assert (st.arena + s)[span.start..span.start + span.len] == st.arena[span.start..span.start + span.len];
  }

  /** What a new entry reads back as: all of the string exactly when its length fits 16 bits. */
  lemma AppendReadsBack(hash: Hash, st: Store, s: seq<byte>)
    requires HasRoom(st, s)
    ensures GetBytes(Append(hash, st, s), |st.offsets|) == Some(s[..|s| % U16])
    ensures GetBytes(Append(hash, st, s), |st.offsets|) == Some(s) <==> |s| < U16
  {
    var n := |s| % U16;
    assert n <= |s|;
    var start := |st.arena| % U32;
    assert start == |st.arena| || s == [];
    assert (st.arena + s)[start..start + n] == s[..n];
    assert s[..n] == s <==> n == |s|;
  }

  lemma AppendIsIndexed(hash: Hash, st: Store, s: seq<byte>)
    requires Good(hash, st) && HasRoom(st, s) && |s| < U16
    ensures InRange(Append(hash, st, s)) && Indexed(hash, Append(hash, st, s))
  {
    var st', n := Append(hash, st, s), |st.offsets|;
    AppendReadsBack(hash, st, s);
    forall id | 0 <= id <= n ensures GetBytes(st', id).Some? && st'.offsets[id].len < U16 {
      if id < n {
        AppendKeepsOld(hash, st, s, id);
      }
    }
    forall id | 0 <= id <= n ensures id in Bucket(st'.lookup, hash(TextOf(st', id))) {
      if id < n {
        AppendKeepsOld(hash, st, s, id);
        assert id in Bucket(st.lookup, hash(TextOf(st, id)));
      }
    }
    forall h, id | id in Bucket(st'.lookup, h) ensures id <= n {
      assert id in Bucket(st.lookup, h) || id == n;
    }
  }

  /** Interning refines the table: a known string keeps its id, a new one is added at the end, and
      old ids keep their bytes. */
  lemma InternIsTable(hash: Hash, st: Store, s: seq<byte>)
    requires Good(hash, st) && (s in Table(st) || (HasRoom(st, s) && |s| < U16))
    ensures var (st', id) := Intern(hash, st, s);
      && Good(hash, st')
      && Table(st') == (if s in Table(st) then Table(st) else Table(st) + [s])
      && id < |Table(st')| && Table(st')[id] == s
  {
    LookupIsTable(hash, st, s);
    if s !in Table(st) {
      var st', n := Append(hash, st, s), |st.offsets|;
      AppendIsIndexed(hash, st, s);
      AppendReadsBack(hash, st, s);
      forall id | 0 <= id < n ensures TextOf(st', id) == Table(st)[id] {
        AppendKeepsOld(hash, st, s, id);
      }
      assert Table(st') == Table(st) + [s];
      forall i, j | 0 <= i <= n && 0 <= j <= n && TextOf(st', i) == TextOf(st', j) ensures i == j {
        assert i < n ==> TextOf(st', i) == Table(st)[i] && TextOf(st', i) == TextOf(st, i);
        assert j < n ==> TextOf(st', j) == Table(st)[j] && TextOf(st', j) == TextOf(st, j);
      }
    }
  }

  // ---------- Exactly which strings survive ----------

  lemma LongIsNeverFound(hash: Hash, st: Store, s: seq<byte>)
    requires forall id :: 0 <= id < |st.offsets| ==> st.offsets[id].len < U16
    requires |s| >= U16
    ensures GetBytesId(hash, st, s).None?
  {
    FirstMatchIs(st, Bucket(st.lookup, hash(s)), s);
  }

  /** Every id in a bucket is an id; nothing is said of what it stands for. */
  ghost predicate Sane(st: Store) {
    InRange(st) && forall h, id :: id in Bucket(st.lookup, h) ==> id < |st.offsets|
  }

  lemma {:induction false} FirstMatchSame(st: Store, st': Store, ids: seq<nat>, s: seq<byte>)
    requires forall id :: id in ids ==> GetBytes(st', id) == GetBytes(st, id)
    ensures FirstMatch(st', ids, s) == FirstMatch(st, ids, s)
  {
    if ids != [] {
      assert ids[0] in ids;
      FirstMatchSame(st, st', ids[1..], s);
    }
  }

  /** A new entry changes no lookup that succeeded before, and adds its own. */
  lemma AppendKeepsLookups(hash: Hash, st: Store, added: seq<byte>, s: seq<byte>)
    requires Sane(st) && HasRoom(st, added)
    ensures var st' := Append(hash, st, added);
      GetBytesId(hash, st', s) ==
      if GetBytesId(hash, st, s).Some? then GetBytesId(hash, st, s)
      else if hash(s) == hash(added) && GetBytes(st', |st.offsets|) == Some(s) then Some(|st.offsets|)
      else None
  {
    var st', ids := Append(hash, st, added), Bucket(st.lookup, hash(s));
    forall id | id in ids ensures GetBytes(st', id) == GetBytes(st, id) {
      AppendKeepsOld(hash, st, added, id);
    }
    FirstMatchSame(st, st', ids, s);
    FirstMatchConcat(st', ids, [|st.offsets|], s);
    assert [|st.offsets|][1..] == [];
  }

  lemma AppendStaysSane(hash: Hash, st: Store, s: seq<byte>)
    requires Sane(st) && HasRoom(st, s)
    ensures Sane(Append(hash, st, s))
  {
    var st', n := Append(hash, st, s), |st.offsets|;
    AppendReadsBack(hash, st, s);
    forall id | 0 <= id <= n ensures GetBytes(st', id).Some? && st'.offsets[id].len < U16 {
      if id < n {
        AppendKeepsOld(hash, st, s, id);
      }
    }
    forall h, id | id in Bucket(st'.lookup, h) ensures id <= n {
      assert id in Bucket(st.lookup, h) || id == n;
    }
  }

  /** Reading back what was interned, and interning it again to the same id, work exactly for strings
      under 2^16 bytes, whatever the store already holds; a longer one is cut to its length modulo
      2^16 and gets a new id every time. */
  lemma RoundTripIff(hash: Hash, st: Store, s: seq<byte>)
    requires Sane(st) && HasRoom(st, s)
    ensures var (st', id) := Intern(hash, st, s);
      && (GetBytes(st', id) == Some(s) <==> |s| < U16)
      && (Intern(hash, st', s).1 == id <==> |s| < U16)
      && (GetBytesId(hash, st', s) == Some(id) <==> |s| < U16)
  {
    var (st', id) := Intern(hash, st, s);
    FirstMatchIs(st, Bucket(st.lookup, hash(s)), s);
    if GetBytesId(hash, st, s).None? {
      AppendReadsBack(hash, st, s);
      AppendKeepsLookups(hash, st, s, s);
    }
    if |s| >= U16 {
      LongIsNeverFound(hash, st, s);
      LongIsNeverFound(hash, st', s);
    }
  }

  // ---------- Whole runs ----------

  function FirstOccurrences(strings: seq<seq<byte>>): seq<seq<byte>> {
    if strings == [] then []
    else
      var before, s := FirstOccurrences(strings[..|strings| - 1]), strings[|strings| - 1];
      if s in before then before else before + [s]
  }

  function InternAll(hash: Hash, strings: seq<seq<byte>>): Store {
    if strings == [] then EMPTY
    else Intern(hash, InternAll(hash, strings[..|strings| - 1]), strings[|strings| - 1]).0
  }

  function TotalBytes(strings: seq<seq<byte>>): nat {
    if strings == [] then 0 else TotalBytes(strings[..|strings| - 1]) + |strings[|strings| - 1]|
  }

  /** After any run within the limits, the table lists the strings in order of first appearance, and
      the arena holds each once. */
  lemma {:induction false} RunIsTable(hash: Hash, strings: seq<seq<byte>>)
    requires forall i :: 0 <= i < |strings| ==> |strings[i]| < U16
    requires |FirstOccurrences(strings)| <= U32 && TotalBytes(FirstOccurrences(strings)) <= U32
    ensures var st := InternAll(hash, strings);
      Good(hash, st) && Table(st) == FirstOccurrences(strings) && |st.arena| == TotalBytes(FirstOccurrences(strings))
  {
    if strings != [] {
      var init, s := strings[..|strings| - 1], strings[|strings| - 1];
      var before := FirstOccurrences(init);
      assert s !in before ==> (before + [s])[..|before|] == before;
      RunIsTable(hash, init);
      var st := InternAll(hash, init);
      InternIsTable(hash, st, s);
      LookupIsTable(hash, st, s);
    }
  }

  /** What a run leaves of one of its strings: a short one is found, and reads back; a long one is not. */
  predicate Kept(hash: Hash, st: Store, s: seq<byte>) {
    var id := GetBytesId(hash, st, s);
    if |s| < U16 then id.Some? && GetBytes(st, id.value) == Some(s) else id.None?
  }

  lemma InternKeeps(hash: Hash, st: Store, added: seq<byte>, s: seq<byte>)
    requires Sane(st) && (GetBytesId(hash, st, added).Some? || HasRoom(st, added))
    requires s == added || Kept(hash, st, s)
    ensures Sane(Intern(hash, st, added).0) && Kept(hash, Intern(hash, st, added).0, s)
  {
    FirstMatchIs(st, Bucket(st.lookup, hash(s)), s);
    if GetBytesId(hash, st, added).None? {
      var st' := Append(hash, st, added);
      AppendStaysSane(hash, st, added);
      AppendReadsBack(hash, st, added);
      AppendKeepsLookups(hash, st, added, s);
      FirstMatchIs(st', Bucket(st'.lookup, hash(s)), s);
    }
    if |s| >= U16 {
      LongIsNeverFound(hash, Intern(hash, st, added).0, s);
    }
  }

  /** After any run within 32-bit arena and ids, long strings included, every short string of the run is
      found and reads back, and no long one is found. */
  lemma {:induction false} RunKeepsShort(hash: Hash, strings: seq<seq<byte>>)
    requires var st := InternAll(hash, strings); |st.arena| <= U32 && |st.offsets| <= U32
    ensures Sane(InternAll(hash, strings))
    ensures forall i :: 0 <= i < |strings| ==> Kept(hash, InternAll(hash, strings), strings[i])
  {
    if strings != [] {
      var init, last := strings[..|strings| - 1], strings[|strings| - 1];
      var st := InternAll(hash, init);
      RunKeepsShort(hash, init);
      forall i | 0 <= i < |strings| ensures Kept(hash, InternAll(hash, strings), strings[i]) {
        assert i < |init| ==> strings[i] == init[i];
        InternKeeps(hash, st, last, strings[i]);
      }
      InternKeeps(hash, st, last, last);
    }
  }

  // ---------- Rebuilding the lookup table ----------

  /** The ids below `n` whose bytes are in range and hash to `h`, in order. */
  function IdsWith(hash: Hash, arena: seq<byte>, offsets: seq<Span>, h: nat, n: nat): seq<nat>
    requires n <= |offsets|
  {
    if n == 0 then []
    else
      var before, bytes := IdsWith(hash, arena, offsets, h, n - 1), Slice(arena, offsets[n - 1]);
      if bytes.Some? && hash(bytes.value) == h then before + [(n - 1) % U32] else before
  }

  ghost predicate IsRebuilt(hash: Hash, st: Store) {
    forall h :: Bucket(st.lookup, h) == IdsWith(hash, st.arena, st.offsets, h, |st.offsets|)
  }

  lemma {:induction false} IdsWithHolds(hash: Hash, arena: seq<byte>, offsets: seq<Span>, h: nat, n: nat, id: nat)
    requires n <= |offsets| <= U32
    ensures id in IdsWith(hash, arena, offsets, h, n) <==>
            id < n && Slice(arena, offsets[id]).Some? && hash(Slice(arena, offsets[id]).value) == h
  {
    if n > 0 {
      IdsWithHolds(hash, arena, offsets, h, n - 1, id);
    }
  }

  lemma {:induction false} FirstMatchConcat(st: Store, a: seq<nat>, b: seq<nat>, s: seq<byte>)
    ensures FirstMatch(st, a + b, s)
      == if FirstMatch(st, a, s).Some? then FirstMatch(st, a, s) else FirstMatch(st, b, s)
  {
    if a == [] {
      assert a + b == b;
    } else {
      assert (a + b)[1..] == a[1..] + b;
      FirstMatchConcat(st, a[1..], b, s);
    }
  }

  ghost predicate IsLeast(st: Store, s: seq<byte>, n: nat, r: Option<nat>) {
    match r
    case Some(id) => id < n && GetBytes(st, id) == Some(s) && forall j :: 0 <= j < id ==> GetBytes(st, j) != Some(s)
    case None => forall j :: 0 <= j < n ==> GetBytes(st, j) != Some(s)
  }

  lemma {:induction false} FirstIsLeast(hash: Hash, st: Store, s: seq<byte>, n: nat)
    requires n <= |st.offsets| <= U32
    ensures IsLeast(st, s, n, FirstMatch(st, IdsWith(hash, st.arena, st.offsets, hash(s), n), s))
  {
    if n > 0 {
      FirstIsLeast(hash, st, s, n - 1);
      var before := IdsWith(hash, st.arena, st.offsets, hash(s), n - 1);
      FirstMatchConcat(st, before, [n - 1], s);
      assert [n - 1][1..] == [];
    }
  }

  /** For any parts at all, a rebuilt interner finds the least id that stands for a string. */
  lemma RebuiltFindsLeast(hash: Hash, st: Store, s: seq<byte>)
    requires IsRebuilt(hash, st) && |st.offsets| <= U32
    ensures IsLeast(st, s, |st.offsets|, GetBytesId(hash, st, s))
  {
    FirstIsLeast(hash, st, s, |st.offsets|);
  }

  /** So an interner rebuilt from the parts of a good one answers every lookup as that one did, and
      is good itself. */
  lemma RebuiltAgrees(hash: Hash, st: Store, rebuilt: Store, s: seq<byte>, id: nat)
    requires Good(hash, st) && |st.offsets| <= U32
    requires IsRebuilt(hash, rebuilt) && rebuilt.arena == st.arena && rebuilt.offsets == st.offsets
    ensures GetBytesId(hash, rebuilt, s) == GetBytesId(hash, st, s)
    ensures GetBytes(rebuilt, id) == GetBytes(st, id)
    ensures Good(hash, rebuilt)
  {
    RebuiltFindsLeast(hash, rebuilt, s);
    LookupIsTable(hash, st, s);
    RebuiltIsIndexed(hash, st, rebuilt);
  }

  lemma RebuiltIsIndexed(hash: Hash, st: Store, rebuilt: Store)
    requires Good(hash, st) && |st.offsets| <= U32
    requires IsRebuilt(hash, rebuilt) && rebuilt.arena == st.arena && rebuilt.offsets == st.offsets
    ensures Good(hash, rebuilt)
  {
    assert InRange(rebuilt) by {
      assert forall id :: 0 <= id < |st.offsets| ==> GetBytes(rebuilt, id) == GetBytes(st, id);
    }
    assert forall id :: 0 <= id < |st.offsets| ==> TextOf(rebuilt, id) == TextOf(st, id);
    forall id | 0 <= id < |rebuilt.offsets| ensures id in Bucket(rebuilt.lookup, hash(TextOf(rebuilt, id))) {
      IdsWithHolds(hash, rebuilt.arena, rebuilt.offsets, hash(TextOf(rebuilt, id)), |rebuilt.offsets|, id);
    }
    forall h, id | id in Bucket(rebuilt.lookup, h) ensures id < |rebuilt.offsets| {
      IdsWithHolds(hash, rebuilt.arena, rebuilt.offsets, h, |rebuilt.offsets|, id);
    }
  }

  class StringInterner {
    const hash: Hash
    var arena: seq<byte>
    var lookup: map<nat, seq<nat>>
    var offsets: seq<Span>

    function State(): Store
      reads this
    {
      Store(arena, lookup, offsets)
    }

    constructor (hash: Hash)
      ensures State() == EMPTY && this.hash == hash
    {
      this.hash, arena, lookup, offsets := hash, [], map[], [];
    }

    /** Rebuilds the lookup table; spans outside the arena get no entry. */
    constructor FromParts(hash: Hash, arena: seq<byte>, offsets: seq<Span>)
      ensures this.hash == hash && this.arena == arena && this.offsets == offsets
      ensures IsRebuilt(hash, State())
    {
      var table: map<nat, seq<nat>> := map[];
      for i := 0 to |offsets|
        invariant forall h :: Bucket(table, h) == IdsWith(hash, arena, offsets, h, i)
      {
        var bytes := Slice(arena, offsets[i]);
        if bytes.Some? {
          table := Push(table, hash(bytes.value), i % U32);
        }
      }
      this.hash, this.arena, this.lookup, this.offsets := hash, arena, table, offsets;
    }

    method FindId(s: seq<byte>) returns (r: Option<nat>)
      ensures r == GetBytesId(hash, State(), s)
    {
      var ids := Bucket(lookup, hash(s));
      assert ids[0..] == ids;
      for i := 0 to |ids|
        invariant GetBytesId(hash, State(), s) == FirstMatch(State(), ids[i..], s)
      {
        if GetBytes(State(), ids[i]) == Some(s) {
          return Some(ids[i]);
        }
        assert ids[i..][1..] == ids[i + 1..];
      }
      r := None;
    }

    method InternBytes(s: seq<byte>) returns (id: nat)
      modifies this
      ensures (State(), id) == Intern(hash, old(State()), s)
    {
      var known := FindId(s);
      if known.Some? {
        return known.value;
      }
      var start, len := |arena| % U32, |s| % U16;
      arena := arena + s;
      id := |offsets| % U32;
      offsets := offsets + [Span(start, len)];
      lookup := Push(lookup, hash(s), id);
    }

    method Clear()
      modifies this
      ensures State() == EMPTY
    {
      arena, lookup, offsets := [], map[], [];
    }
  }
}
