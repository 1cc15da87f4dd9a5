/** File events, coalesced per path into at most one pending change and applied as a batch, compared
    with applying them one at a time to the same files. */
module EventCoalescing {
  import opened Text

  datatype Kind = Created | Modified | Removed | Renamed

  datatype FileEvent = FileEvent(kind: Kind, paths: seq<string>)

  datatype Change = Change(path: string, kind: Kind)

  type Pending = map<string, Kind>

  /** The files as they are when changes are applied, and which paths are indexed at all. What a file
      indexes to is `None` when it cannot be read, is empty, too large, binary or unsupported. */
  datatype World<E> = World(disk: string -> Option<E>, shouldIndex: string -> bool)

  function At<V>(m: map<string, V>, p: string): Option<V> { if p in m then Some(m[p]) else None }

  function Put<V>(m: map<string, V>, p: string, v: Option<V>): map<string, V> {
    if v.Some? then m[p := v.value] else m - {p}
  }

  // ---------- Coalescing ----------

  function Merge(prev: Option<Kind>, kind: Kind): Option<Kind> {
    match (prev, kind)
    case (Some(Created), Removed) => None
    case (Some(Modified), Removed) => None
    case (Some(Removed), Created) => Some(Created)
    case (Some(Removed), Modified) => Some(Created)
    case (_, _) => Some(kind)
  }

  /** An event as changes to single paths; a rename removes its first path and creates its second. */
  function Changes(event: FileEvent): seq<Change> {
    if event.kind == Renamed && |event.paths| >= 2
    then [Change(event.paths[0], Removed), Change(event.paths[1], Created)]
    else Each(event.kind, event.paths)
  }

  function Each(kind: Kind, paths: seq<string>): seq<Change> {
    if paths == [] then [] else Each(kind, paths[..|paths| - 1]) + [Change(paths[|paths| - 1], kind)]
  }

  function AllChanges(events: seq<FileEvent>): seq<Change> {
    if events == [] then [] else AllChanges(events[..|events| - 1]) + Changes(events[|events| - 1])
  }

  function KindsAt(changes: seq<Change>, p: string): seq<Kind> {
    if changes == [] then []
    else
      var c, before := changes[|changes| - 1], KindsAt(changes[..|changes| - 1], p);
      if c.path == p then before + [c.kind] else before
  }

  function MergeAll(kinds: seq<Kind>): Option<Kind> {
    if kinds == [] then None else Merge(MergeAll(kinds[..|kinds| - 1]), kinds[|kinds| - 1])
  }

  function Insert(pending: Pending, c: Change): Pending {
    Put(pending, c.path, Merge(At(pending, c.path), c.kind))
  }

  function Coalesce(changes: seq<Change>): Pending {
    if changes == [] then map[] else Insert(Coalesce(changes[..|changes| - 1]), changes[|changes| - 1])
  }

  lemma CoalesceMore(changes: seq<Change>, c: Change)
    ensures Coalesce(changes + [c]) == Insert(Coalesce(changes), c)
  {
    assert (changes + [c])[..|changes|] == changes;
  }

  /** The hash map tracks each path by itself. */
  lemma {:induction false} CoalesceAt(changes: seq<Change>, p: string)
    ensures At(Coalesce(changes), p) == MergeAll(KindsAt(changes, p))
  {
    if changes != [] {
      var init, c := changes[..|changes| - 1], changes[|changes| - 1];
      CoalesceAt(init, p);
      if c.path == p {
        var before := KindsAt(init, p);
        assert (before + [c.kind])[..|before|] == before;
      }
    }
  }

  /** The last two changes of a path cancel: a create or modify, then a removal. */
  predicate Cancels(kinds: seq<Kind>) {
    |kinds| >= 2 && kinds[|kinds| - 1] == Removed && (kinds[|kinds| - 2] == Created || kinds[|kinds| - 2] == Modified)
  }

  /** A modification after a removal that still stood counts as a creation. */
  predicate Recreates(kinds: seq<Kind>) {
    && |kinds| >= 2 && kinds[|kinds| - 1] == Modified && kinds[|kinds| - 2] == Removed
    && !Cancels(kinds[..|kinds| - 1])
  }

  /** What a path's history merges to is decided by its last three changes. */
  lemma {:induction false} MergeAllIs(kinds: seq<Kind>)
    requires kinds != []
    ensures MergeAll(kinds) ==
      if Cancels(kinds) then None else if Recreates(kinds) then Some(Created) else Some(kinds[|kinds| - 1])
  {
    if |kinds| >= 2 {
      MergeAllIs(kinds[..|kinds| - 1]);
    } else {
      assert kinds[..|kinds| - 1] == [];
    }
  }

  // ---------- What events say about one path ----------

  /** Reference: a rename removes the path it moves from and creates the one it moves to; any other
      event says its kind once for every time it names the path. */
  function Saying(event: FileEvent, p: string): seq<Kind> {
    if event.kind == Renamed && |event.paths| >= 2 then
      (if p == event.paths[0] then [Removed] else []) + (if p == event.paths[1] then [Created] else [])
    else Copies(multiset(event.paths)[p], event.kind)
  }

  function Copies(n: nat, kind: Kind): seq<Kind> { if n == 0 then [] else Copies(n - 1, kind) + [kind] }

  function History(events: seq<FileEvent>, p: string): seq<Kind> {
    if events == [] then [] else History(events[..|events| - 1], p) + Saying(events[|events| - 1], p)
  }

  lemma {:induction false} KindsAtConcat(a: seq<Change>, b: seq<Change>, p: string)
    ensures KindsAt(a + b, p) == KindsAt(a, p) + KindsAt(b, p)
    decreases |b|
  {
    if b == [] {
      assert a + b == a;
    } else {
      var init, c := b[..|b| - 1], b[|b| - 1];
      assert (a + b)[..|a + b| - 1] == a + init;
      KindsAtConcat(a, init, p);
    }
  }

  lemma {:induction false} KindsOfEach(kind: Kind, paths: seq<string>, p: string)
    ensures KindsAt(Each(kind, paths), p) == Copies(multiset(paths)[p], kind)
  {
    if paths != [] {
      var init, last := paths[..|paths| - 1], paths[|paths| - 1];
      KindsOfEach(kind, init, p);
      assert paths == init + [last];
      var each := Each(kind, init);
      assert (each + [Change(last, kind)])[..|each|] == each;
    }
  }

  lemma KindsOfOne(c: Change, p: string)
    ensures KindsAt([c], p) == if c.path == p then [c.kind] else []
  {
    assert [c][..0] == [];
  }

  lemma SayingIs(event: FileEvent, p: string)
    ensures KindsAt(Changes(event), p) == Saying(event, p)
  {
    if event.kind == Renamed && |event.paths| >= 2 {
      var removed, created := Change(event.paths[0], Removed), Change(event.paths[1], Created);
      KindsOfOne(removed, p);
      KindsOfOne(created, p);
      KindsAtConcat([removed], [created], p);
      assert [removed] + [created] == [removed, created];
    } else {
      KindsOfEach(event.kind, event.paths, p);
    }
  }

  /** The changes of a list of events hold, for every path, exactly what the events say about it. */
  lemma {:induction false} HistoryIs(events: seq<FileEvent>, p: string)
    ensures KindsAt(AllChanges(events), p) == History(events, p)
  {
    if events != [] {
      var init, last := events[..|events| - 1], events[|events| - 1];
      HistoryIs(init, p);
      KindsAtConcat(AllChanges(init), Changes(last), p);
      SayingIs(last, p);
    }
  }

  class CoalescedEvents {
    var events: Pending
    ghost var changes: seq<Change>

    ghost predicate Valid()
      reads this
    {
      events == Coalesce(changes)
    }

    constructor ()
      ensures Valid() && changes == []
    {
      events, changes := map[], [];
    }

    method InsertChange(path: string, kind: Kind)
      requires Valid()
      modifies this
      ensures Valid() && changes == old(changes) + [Change(path, kind)]
    {
      CoalesceMore(changes, Change(path, kind));
      changes := changes + [Change(path, kind)];
      Enter(path, kind);
    }

    method Enter(path: string, kind: Kind)
      modifies this`events
      ensures events == Insert(old(events), Change(path, kind))
    {
      if path !in events {
        events := events[path := kind];
        return;
      }
      match (events[path], kind)
      case (Created, Removed) => events := events - {path};
      case (Modified, Removed) => events := events - {path};
      case (Removed, Created) => events := events[path := Created];
      case (Removed, Modified) => events := events[path := Created];
      case (_, _) => events := events[path := kind];
    }

    method Add(event: FileEvent)
      requires Valid()
      modifies this
      ensures Valid() && changes == old(changes) + Changes(event)
    {
      if event.kind == Renamed && |event.paths| >= 2 {
        Assoc(changes, [Change(event.paths[0], Removed)], [Change(event.paths[1], Created)]);
        InsertChange(event.paths[0], Removed);
        InsertChange(event.paths[1], Created);
        return;
      }
      AddEach(event.kind, event.paths);
    }

    method AddEach(kind: Kind, paths: seq<string>)
      requires Valid()
      modifies this
      ensures Valid() && changes == old(changes) + Each(kind, paths)
    {
      for i := 0 to |paths|
        invariant Valid() && changes == old(changes) + Each(kind, paths[..i])
      {
        EachStep(kind, paths, i);
        Assoc(old(changes), Each(kind, paths[..i]), [Change(paths[i], kind)]);
        InsertChange(paths[i], kind);
      }
      assert paths[..|paths|] == paths;
    }
  }

  lemma EachStep(kind: Kind, paths: seq<string>, i: nat)
    requires i < |paths|
    ensures Each(kind, paths[..i + 1]) == Each(kind, paths[..i]) + [Change(paths[i], kind)]
  {
    assert paths[..i + 1][..i] == paths[..i];
  }

  // ---------- Applying ----------

  function ApplyOne<E>(w: World<E>, index: map<string, E>, c: Change): map<string, E> {
    if !w.shouldIndex(c.path) then index
    else Put(index, c.path, if c.kind.Removed? then None else w.disk(c.path))
  }

  function OneAtATime<E>(w: World<E>, index: map<string, E>, changes: seq<Change>): map<string, E> {
    if changes == [] then index
    else ApplyOne(w, OneAtATime(w, index, changes[..|changes| - 1]), changes[|changes| - 1])
  }

  /** What a batch leaves at one path. */
  function BatchAt<E>(w: World<E>, p: string, before: Option<E>, pending: Option<Kind>): Option<E> {
    if pending.None? || !w.shouldIndex(p) then before
    else if pending.value.Removed? then None
    else w.disk(p)
  }

  function Due<E>(w: World<E>, events: Pending): set<string> { set p | p in events && w.shouldIndex(p) }

  class IndexManager<E> {
    const world: World<E>
    var index: map<string, E>
    var updatesProcessed: nat

    constructor (world: World<E>, index: map<string, E>)
      ensures this.world == world && this.index == index && updatesProcessed == 0
    {
      this.world, this.index, updatesProcessed := world, index, 0;
    }

    method ReindexFile(p: string)
      modifies this`index
      ensures forall q :: At(index, q) == if q == p then world.disk(p) else At(old(index), q)
    {
      index := index - {p};
      var entry := world.disk(p);
      if entry.Some? {
        index := index[p := entry.value];
      }
    }

    method RemoveFile(p: string)
      modifies this`index
      ensures forall q :: At(index, q) == if q == p then None else At(old(index), q)
    {
      index := index - {p};
    }

    /** Applies the pending changes in any order the map yields them. */
    method ApplyCoalesced(events: Pending)
      modifies this
      ensures forall p :: At(index, p) == BatchAt(world, p, At(old(index), p), At(events, p))
      ensures updatesProcessed == old(updatesProcessed) + |Due(world, events)|
    {
      var todo := events;
      while todo != map[]
        invariant todo.Keys <= events.Keys && forall p :: p in todo ==> todo[p] == events[p]
        invariant forall p ::
          At(index, p) == if p in todo then At(old(index), p) else BatchAt(world, p, At(old(index), p), At(events, p))
        invariant updatesProcessed + |Due(world, todo)| == old(updatesProcessed) + |Due(world, events)|
        decreases |todo|
      {
        var p :| p in todo;
        var kind := todo[p];
        DueStep(world, todo, p);
        todo := todo - {p};
        if world.shouldIndex(p) {
          if kind.Removed? {
            RemoveFile(p);
          } else {
            ReindexFile(p);
          }
          updatesProcessed := updatesProcessed + 1;
        }
      }
    }
  }

  lemma DueStep<E>(w: World<E>, events: Pending, p: string)
    requires p in events
    ensures |Due(w, events)| == |Due(w, events - {p})| + if w.shouldIndex(p) then 1 else 0
  {
    if w.shouldIndex(p) {
      assert Due(w, events) == Due(w, events - {p}) + {p};
    } else {
      assert Due(w, events) == Due(w, events - {p});
    }
  }

  /** One at a time, the last change of a path decides. */
  lemma {:induction false} OneAtATimeAt<E>(w: World<E>, index: map<string, E>, changes: seq<Change>, p: string)
    ensures var kinds := KindsAt(changes, p);
      At(OneAtATime(w, index, changes), p) ==
      if kinds == [] || !w.shouldIndex(p) then At(index, p)
      else if kinds[|kinds| - 1].Removed? then None else w.disk(p)
  {
    if changes != [] {
      OneAtATimeAt(w, index, changes[..|changes| - 1], p);
    }
  }

  /** Batch and one-at-a-time application leave the same entry at a path exactly unless its changes
      end in a create or modify cancelled by a removal and the path was indexed before; there, one at
      a time the entry is gone and the batch leaves the old one. */
  lemma BatchAgreesIff<E>(w: World<E>, index: map<string, E>, changes: seq<Change>, p: string)
    ensures var batch := BatchAt(w, p, At(index, p), At(Coalesce(changes), p));
      var single := At(OneAtATime(w, index, changes), p);
      && (batch == single <==> !(Cancels(KindsAt(changes, p)) && w.shouldIndex(p) && p in index))
      && (batch != single ==> batch == At(index, p) && single == None)
  {
    CoalesceAt(changes, p);
    OneAtATimeAt(w, index, changes, p);
    if KindsAt(changes, p) != [] {
      MergeAllIs(KindsAt(changes, p));
    }
  }

  /** What a batch of events leaves at a path, told by the path's history alone. */
  function Outcome<E>(w: World<E>, before: Option<E>, history: seq<Kind>, p: string): Option<E> {
    if history == [] || !w.shouldIndex(p) || Cancels(history) then before
    else if history[|history| - 1].Removed? then None
    else w.disk(p)
  }

  lemma OutcomeIs<E>(w: World<E>, before: map<string, E>, events: seq<FileEvent>, p: string)
    ensures BatchAt(w, p, At(before, p), At(Coalesce(AllChanges(events)), p))
         == Outcome(w, At(before, p), History(events, p), p)
  {
    CoalesceAt(AllChanges(events), p);
    HistoryIs(events, p);
    if History(events, p) != [] {
      MergeAllIs(History(events, p));
    }
  }

  /** The whole batch, for events of every kind: renames, several paths, repeats. Every path ends as its
      history says, and as one-at-a-time application leaves it unless its last two changes cancel. */
  method ApplyBatch<E>(w: World<E>, before: map<string, E>, events: seq<FileEvent>) returns (after: map<string, E>)
    ensures forall p :: At(after, p) == Outcome(w, At(before, p), History(events, p), p)
    ensures var single := OneAtATime(w, before, AllChanges(events));
      forall p :: At(after, p) ==
        if Cancels(History(events, p)) && w.shouldIndex(p) && p in before then Some(before[p]) else At(single, p)
  {
    var coalesced := new CoalescedEvents();
    for i := 0 to |events|
      invariant coalesced.Valid() && coalesced.changes == AllChanges(events[..i])
    {
      assert events[..i + 1][..i] == events[..i];
      coalesced.Add(events[i]);
    }
    assert events[..|events|] == events;
    var manager := new IndexManager(w, before);
    manager.ApplyCoalesced(coalesced.events);
    after := manager.index;
    forall p ensures At(after, p) == Outcome(w, At(before, p), History(events, p), p) {
      OutcomeIs(w, before, events, p);
    }
    forall p ensures At(after, p) ==
        if Cancels(History(events, p)) && w.shouldIndex(p) && p in before then Some(before[p])
        else At(OneAtATime(w, before, AllChanges(events)), p) {
      HistoryIs(events, p);
      BatchAgreesIff(w, before, AllChanges(events), p);
    }
  }

  predicate EndsFresh(history: seq<Kind>) {
    history != [] && (history[|history| - 1].Created? || history[|history| - 1].Modified?)
  }

  lemma RenameSays(events: seq<FileEvent>, from: string, to: string)
    requires from != to
    ensures var all := events + [FileEvent(Renamed, [from, to])];
      History(all, to) == History(events, to) + [Created] && History(all, from) == History(events, from) + [Removed]
  {
    var e := FileEvent(Renamed, [from, to]);
    var all := events + [e];
    assert all[..|all| - 1] == events;
    assert Saying(e, to) == [Created] && Saying(e, from) == [Removed];
  }

  lemma OutcomeOfLast<E>(w: World<E>, before: Option<E>, history: seq<Kind>, p: string)
    requires w.shouldIndex(p)
    ensures Outcome(w, before, history + [Created], p) == w.disk(p)
    ensures Outcome(w, before, history + [Removed], p) == if EndsFresh(history) then before else None
  {
  }

  /** After a batch that ends with a rename, the new path holds what is on disk; the old one is gone,
      unless the batch had just created or modified it. */
  lemma RenameMoves<E>(w: World<E>, before: map<string, E>, events: seq<FileEvent>, from: string, to: string)
    requires from != to && w.shouldIndex(from) && w.shouldIndex(to)
    ensures var all := events + [FileEvent(Renamed, [from, to])];
      && Outcome(w, At(before, to), History(all, to), to) == w.disk(to)
      && Outcome(w, At(before, from), History(all, from), from)
         == if EndsFresh(History(events, from)) then At(before, from) else None
  {
    RenameSays(events, from, to);
    OutcomeOfLast(w, At(before, to), History(events, to), to);
    OutcomeOfLast(w, At(before, from), History(events, from), from);
  }
}
