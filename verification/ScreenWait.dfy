/** Waiting for a screen condition: a feeder and resizes change the grid and bump a generation, a
    waiter marks the generation seen, checks the grid and parks.

    The grid is a function of the updates applied to it, so the state keeps the updates themselves,
    and the condition is any predicate of them. */
module ScreenWait {
  import opened Text

  datatype Update = Feed(bytes: seq<nat>) | Resize(cols: nat, rows: nat)

  type Condition = seq<Update> -> bool

  /** The feeder: waiting for output, between its feed and its bump, or over. */
  datatype Feeder = Waiting | Fed(i: nat) | Gone

  /** A resize. From `Applied` to `Holding` it holds the terminal lock; from `Upgraded` on it also
      holds a strong reference to the sender. */
  datatype Resizer = Free | Applied(i: nat) | Upgraded(i: nat) | Holding

  datatype Waiter =
    | Idle | Marking | Checking | Parked | Closing(ended: bool) | Matched | Failed(ended: bool, screen: nat)

  /** `bumped` and `silent` are the updates announced and the resizes that found no sender; `checked`
      is how many updates the last grid checked contained. */
  datatype State = State(
    updates: seq<Update>, bumped: set<nat>, silent: set<nat>, generation: nat,
    feeder: Feeder, resizer: Resizer, waiter: Waiter, seen: nat, checked: nat)

  datatype Step =
    | FeedApply(bytes: seq<nat>) | FeedBump | FeederExit
    | ResizeApply(cols: nat, rows: nat) | ResizeUpgrade | ResizeGiveUp | ResizeBump | ResizeRelease
    | Begin(seen: nat) | MarkSeen | Check | Wake | Close | Timeout | Snapshot

  predicate HasSender(s: State) { !s.feeder.Gone? || s.resizer.Upgraded? || s.resizer.Holding? }

  predicate LockFree(s: State) { s.resizer.Free? }

  predicate Enabled(s: State, step: Step) {
    match step
    case FeedApply(_) => s.feeder.Waiting? && LockFree(s)
    case FeedBump => s.feeder.Fed?
    case FeederExit => s.feeder.Waiting?
    case ResizeApply(_, _) => LockFree(s)
    case ResizeUpgrade => s.resizer.Applied? && HasSender(s)
    case ResizeGiveUp => s.resizer.Applied? && !HasSender(s)
    case ResizeBump => s.resizer.Upgraded?
    case ResizeRelease => s.resizer.Holding?
    // The receiver is a copy of the session's, which may have seen any earlier generation.
    case Begin(seen) => (s.waiter.Idle? || s.waiter.Matched? || s.waiter.Failed?) && seen <= s.generation
    case MarkSeen => s.waiter.Marking?
    case Check => s.waiter.Checking? && LockFree(s)
    // An unseen generation is reported before the loss of the sender.
    case Wake => s.waiter.Parked? && s.seen != s.generation
    case Close => s.waiter.Parked? && s.seen == s.generation && !HasSender(s)
    case Timeout => s.waiter.Parked?
    case Snapshot => s.waiter.Closing? && LockFree(s)
  }

  function Next(cond: Condition, s: State, step: Step): State
    requires Enabled(s, step)
  {
    match step
    case FeedApply(bytes) => s.(updates := s.updates + [Feed(bytes)], feeder := Fed(|s.updates|))
    case FeedBump => s.(bumped := s.bumped + {s.feeder.i}, generation := s.generation + 1, feeder := Waiting)
    case FeederExit => s.(feeder := Gone)
    case ResizeApply(cols, rows) => s.(updates := s.updates + [Resize(cols, rows)], resizer := Applied(|s.updates|))
    case ResizeUpgrade => s.(resizer := Upgraded(s.resizer.i))
    case ResizeGiveUp => s.(resizer := Free, silent := s.silent + {s.resizer.i})
    case ResizeBump => s.(bumped := s.bumped + {s.resizer.i}, generation := s.generation + 1, resizer := Holding)
    case ResizeRelease => s.(resizer := Free)
    case Begin(seen) => s.(seen := seen, waiter := Marking)
    case MarkSeen => s.(seen := s.generation, waiter := Checking)
    case Check => s.(waiter := if cond(s.updates) then Matched else Parked, checked := |s.updates|)
    case Wake => s.(seen := s.generation, waiter := Marking)
    case Close => s.(waiter := Closing(true))
    case Timeout => s.(waiter := Closing(false))
    case Snapshot => s.(waiter := Failed(s.waiter.ended, |s.updates|))
  }

  /** A session that has just started. */
  const START := State([], {}, {}, 0, Waiting, Free, Idle, 0, 0)

  predicate CanRun(cond: Condition, s: State, steps: seq<Step>)
    decreases |steps|
  {
    steps == [] || (Enabled(s, steps[0]) && CanRun(cond, Next(cond, s, steps[0]), steps[1..]))
  }

  /** The state after a run; any interleaving is a sequence of steps. */
  function Run(cond: Condition, s: State, steps: seq<Step>): State
    requires CanRun(cond, s, steps)
    decreases |steps|
  {
    if steps == [] then s else Run(cond, Next(cond, s, steps[0]), steps[1..])
  }

  // ---------- What every step keeps ----------

  predicate Busy(s: State, i: nat) {
    s.feeder == Fed(i) || s.resizer == Applied(i) || s.resizer == Upgraded(i)
  }

  /** Each update is announced, silent, or still in the hands of whoever applied it. */
  ghost predicate Accounted(s: State) {
    && (forall i :: i in s.bumped ==> i < |s.updates|)
    && (forall i :: i in s.silent ==> i < |s.updates| && s.updates[i].Resize?)
    && (forall i :: 0 <= i < |s.updates| ==> i in s.bumped || i in s.silent || Busy(s, i))
    && (s.feeder.Fed? ==> s.feeder.i < |s.updates|)
    && (s.resizer.Applied? || s.resizer.Upgraded? ==> s.resizer.i < |s.updates| && s.updates[s.resizer.i].Resize?)
    && (s.silent != {} ==> !HasSender(s))
  }

  predicate HasChecked(w: Waiter) { w.Parked? || w.Closing? || w.Failed? }

  /** No lost wakeup: a waiter without an unseen generation has checked every announced update. */
  ghost predicate NoLostWakeup(s: State) {
    && s.seen <= s.generation
    && s.checked <= |s.updates|
    && (HasChecked(s.waiter) && s.seen == s.generation ==> forall i :: i in s.bumped ==> i < s.checked)
  }

  /** A wait that ended was closed by the loss of the sender, with nothing unseen. */
  ghost predicate EndedIsFinal(s: State) {
    s.waiter == Closing(true) || (s.waiter.Failed? && s.waiter.ended) ==> !HasSender(s) && s.seen == s.generation
  }

  /** What the waiter reports about the condition is true of the grid it checked. */
  ghost predicate Honest(cond: Condition, s: State) {
    && s.checked <= |s.updates|
    && (HasChecked(s.waiter) ==> !cond(s.updates[..s.checked]))
    && (s.waiter.Matched? ==> cond(s.updates[..s.checked]))
    && (s.waiter.Failed? ==> s.checked <= s.waiter.screen <= |s.updates|)
  }

  ghost predicate Inv(cond: Condition, s: State) {
    Accounted(s) && NoLostWakeup(s) && EndedIsFinal(s) && Honest(cond, s)
  }

  lemma StepKeepsAccounts(cond: Condition, s: State, step: Step)
    requires Accounted(s) && Enabled(s, step)
    ensures Accounted(Next(cond, s, step))
  {
    var t := Next(cond, s, step);
    forall i | 0 <= i < |t.updates| ensures i in t.bumped || i in t.silent || Busy(t, i) {
      if i < |s.updates| {
        assert i in s.bumped || i in s.silent || Busy(s, i);
      }
    }
  }

  lemma StepKeepsWakeups(cond: Condition, s: State, step: Step)
    requires Accounted(s) && NoLostWakeup(s) && Enabled(s, step)
    ensures NoLostWakeup(Next(cond, s, step))
  {
  }

  lemma StepKeepsHonesty(cond: Condition, s: State, step: Step)
    requires NoLostWakeup(s) && Honest(cond, s) && Enabled(s, step)
    ensures Honest(cond, Next(cond, s, step))
  {
    var t := Next(cond, s, step);
    if step.Check? {
      assert t.updates[..t.checked] == s.updates;
    } else {
      assert t.updates[..t.checked] == s.updates[..s.checked];
    }
  }

  lemma StepKeepsInv(cond: Condition, s: State, step: Step)
    requires Inv(cond, s) && Enabled(s, step)
    ensures Inv(cond, Next(cond, s, step))
  {
    StepKeepsAccounts(cond, s, step);
    StepKeepsWakeups(cond, s, step);
    StepKeepsHonesty(cond, s, step);
    assert EndedIsFinal(Next(cond, s, step));
  }

  /** Every state of every interleaving satisfies the invariant. */
  lemma {:induction false} RunKeepsInv(cond: Condition, s: State, steps: seq<Step>)
    requires Inv(cond, s) && CanRun(cond, s, steps)
    ensures Inv(cond, Run(cond, s, steps))
    decreases |steps|
  {
    if steps != [] {
      StepKeepsInv(cond, s, steps[0]);
      RunKeepsInv(cond, Next(cond, s, steps[0]), steps[1..]);
    }
  }

  // ---------- What a waiter can rely on ----------

  ghost predicate Reachable(cond: Condition, s: State) {
    exists steps :: CanRun(cond, START, steps) && s == Run(cond, START, steps)
  }

  lemma ReachableIsGood(cond: Condition, s: State)
    requires Reachable(cond, s)
    ensures Inv(cond, s)
  {
    var steps :| CanRun(cond, START, steps) && s == Run(cond, START, steps);
    RunKeepsInv(cond, START, steps);
  }

  /** A parked waiter with nothing unseen has checked a grid with every announced update. */
  lemma NoWakeupIsLost(cond: Condition, s: State)
    requires Reachable(cond, s) && s.waiter.Parked? && s.seen == s.generation
    ensures s.checked <= |s.updates| && !cond(s.updates[..s.checked])
    ensures forall i :: i in s.bumped ==> i < s.checked
    ensures forall i :: s.checked <= i < |s.updates| ==> i in s.silent || Busy(s, i)
  {
    ReachableIsGood(cond, s);
    forall i | s.checked <= i < |s.updates| ensures i in s.silent || Busy(s, i) {
      assert i in s.bumped || i in s.silent || Busy(s, i);
    }
  }

  lemma QuietMeansChecked(s: State)
    requires Accounted(s) && NoLostWakeup(s) && HasChecked(s.waiter) && s.seen == s.generation
    requires !s.feeder.Fed? && (s.resizer.Free? || s.resizer.Holding?) && s.silent == {}
    ensures s.checked == |s.updates| && s.updates[..s.checked] == s.updates
  {
    assert forall i :: 0 <= i < |s.updates| ==> i in s.bumped;
    assert s.checked < |s.updates| ==> s.checked in s.bumped;
  }

  /** If the condition holds once feeder and resize are idle, a parked waiter is woken, and finds it. */
  lemma ParkedWaiterFindsIt(cond: Condition, s: State)
    requires Reachable(cond, s) && s.waiter.Parked? && cond(s.updates)
    requires !s.feeder.Fed? && s.resizer.Free? && s.silent == {}
    ensures CanRun(cond, s, [Wake, MarkSeen, Check])
    ensures Run(cond, s, [Wake, MarkSeen, Check]).waiter.Matched?
  {
    ReachableIsGood(cond, s);
    assert s.seen != s.generation by {
      if s.seen == s.generation {
        QuietMeansChecked(s);
      }
    }
    var s1 := Next(cond, s, Wake);
    var s2 := Next(cond, s1, MarkSeen);
    RunCons(cond, s2, Check, []);
    RunCons(cond, s1, MarkSeen, [Check]);
    RunCons(cond, s, Wake, [MarkSeen, Check]);
  }

  /** A wait that ended has seen the final grid up to resizes that found no sender: nothing else was
      applied after its last check, and its screen fails the condition if there was no such resize. */
  lemma EndedMeansFinal(cond: Condition, s: State)
    requires Reachable(cond, s) && s.waiter.Failed? && s.waiter.ended
    ensures s.checked <= |s.updates| && !cond(s.updates[..s.checked])
    ensures forall i :: s.checked <= i < |s.updates| ==> s.updates[i].Resize? && i !in s.bumped
    ensures s.checked == |s.updates| ==> s.waiter.screen == |s.updates| && !cond(s.updates)
  {
    ReachableIsGood(cond, s);
    forall i | s.checked <= i < |s.updates| ensures s.updates[i].Resize? && i !in s.bumped {
      assert i in s.bumped || i in s.silent || Busy(s, i);
    }
    if s.checked == |s.updates| {
      assert s.updates[..s.checked] == s.updates;
    }
  }

  /** Once a wait has ended, whatever runs later only resizes: the feeder never writes again. */
  lemma {:induction false} EndedStaysFinal(cond: Condition, s: State, steps: seq<Step>)
    requires !HasSender(s) && CanRun(cond, s, steps)
    ensures var t := Run(cond, s, steps);
      && !HasSender(t) && t.bumped == s.bumped && t.generation == s.generation && s.updates <= t.updates
      && forall i :: |s.updates| <= i < |t.updates| ==> t.updates[i].Resize?
    decreases |steps|
  {
    if steps != [] {
      EndedStaysFinal(cond, Next(cond, s, steps[0]), steps[1..]);
    }
  }

  ghost predicate NoLateResize(cond: Condition, s: State, steps: seq<Step>)
    requires CanRun(cond, s, steps)
    decreases |steps|
  {
    && (!HasSender(s) ==> s.resizer.Free?)
    && (steps != [] ==> NoLateResize(cond, Next(cond, s, steps[0]), steps[1..]))
  }

  lemma {:induction false} NothingSilent(cond: Condition, s: State, steps: seq<Step>)
    requires CanRun(cond, s, steps) && NoLateResize(cond, s, steps) && s.silent == {}
    ensures var t := Run(cond, s, steps); t.silent == {} && (!HasSender(t) ==> t.resizer.Free?)
    decreases |steps|
  {
    if steps != [] {
      NothingSilent(cond, Next(cond, s, steps[0]), steps[1..]);
    }
  }

  /** In runs where no resize races or follows the loss of the sender, `ended` means that the final
      grid fails the condition. */
  lemma EndedMeansNeverMet(cond: Condition, steps: seq<Step>)
    requires CanRun(cond, START, steps) && NoLateResize(cond, START, steps)
    ensures var s := Run(cond, START, steps);
      s.waiter.Failed? && s.waiter.ended ==> s.checked == s.waiter.screen == |s.updates| && !cond(s.updates)
  {
    var s := Run(cond, START, steps);
    NothingSilent(cond, START, steps);
    if s.waiter.Failed? && s.waiter.ended {
      ReachableIsGood(cond, s);
      QuietMeansChecked(s);
    }
  }

  // ---------- Exactly when an ended wait saw the final grid ----------

  lemma {:induction false} CheckedGrows(cond: Condition, s: State, steps: seq<Step>)
    requires CanRun(cond, s, steps) && s.checked <= |s.updates|
    ensures s.checked <= Run(cond, s, steps).checked
    decreases |steps|
  {
    if steps != [] {
      CheckedGrows(cond, Next(cond, s, steps[0]), steps[1..]);
    }
  }

  /** Conditions that agree on every grid up to the last one checked take the same run. */
  lemma {:induction false} SameRun(cond: Condition, other: Condition, s: State, steps: seq<Step>)
    requires CanRun(cond, s, steps) && s.checked <= |s.updates|
    requires forall u :: |u| <= Run(cond, s, steps).checked ==> cond(u) == other(u)
    ensures CanRun(other, s, steps) && Run(other, s, steps) == Run(cond, s, steps)
    decreases |steps|
  {
    if steps != [] {
      var next := Next(cond, s, steps[0]);
      CheckedGrows(cond, next, steps[1..]);
      assert next == Next(other, s, steps[0]);
      SameRun(cond, other, next, steps[1..]);
    }
  }

  /** How many updates a run applies after its last check, given how many came before it. */
  function Unchecked(n: nat, steps: seq<Step>): nat
    decreases |steps|
  {
    if steps == [] then n
    else
      var next := match steps[0]
        case Check => 0
        case FeedApply(_) => n + 1
        case ResizeApply(_, _) => n + 1
        case _ => n;
      Unchecked(next, steps[1..])
  }

  lemma {:induction false} UncheckedCounts(cond: Condition, s: State, steps: seq<Step>)
    requires CanRun(cond, s, steps) && s.checked <= |s.updates|
    ensures var t := Run(cond, s, steps);
      t.checked <= |t.updates| && |t.updates| - t.checked == Unchecked(|s.updates| - s.checked, steps)
    decreases |steps|
  {
    if steps != [] {
      UncheckedCounts(cond, Next(cond, s, steps[0]), steps[1..]);
    }
  }

  /** No condition that explains what the waiter did is met by the final grid. */
  ghost predicate NeverMet(steps: seq<Step>, s: State) {
    forall other: Condition :: CanRun(other, START, steps) && Run(other, START, steps) == s ==> !other(s.updates)
  }

  /** What `ended` promises holds exactly of the runs that apply no update after their last check, and
      the only update that can break it is a resize whose bump found no sender. */
  lemma EndedIff(cond: Condition, steps: seq<Step>)
    requires CanRun(cond, START, steps)
    requires var s := Run(cond, START, steps); s.waiter.Failed? && s.waiter.ended
    ensures var s := Run(cond, START, steps);
      && (NeverMet(steps, s) <==> Unchecked(0, steps) == 0)
      && (NeverMet(steps, s) <==> s.checked == |s.updates|)
      && (NeverMet(steps, s) <==> forall i :: s.checked <= i < |s.updates| ==> !IsUnannouncedResize(s, i))
      && forall i :: s.checked <= i < |s.updates| ==> IsUnannouncedResize(s, i)
  {
    var s := Run(cond, START, steps);
    UncheckedCounts(cond, START, steps);
    EndedMeansFinal(cond, s);
    forall other: Condition | s.checked == |s.updates| && CanRun(other, START, steps) && Run(other, START, steps) == s
      ensures !other(s.updates)
    {
      EndedMeansFinal(other, s);
    }
    if s.checked < |s.updates| {
      var other: Condition := (u: seq<Update>) => cond(u) || |u| > s.checked;
      SameRun(cond, other, START, steps);
      assert other(s.updates);
      assert IsUnannouncedResize(s, s.checked);
    }
  }

  predicate IsUnannouncedResize(s: State, i: nat)
    requires i < |s.updates|
  {
    s.updates[i].Resize? && i !in s.bumped
  }

  /** A late resize defeats it: the wait ends unmatched though the final grid, which it even reports,
      meets the condition. */
  lemma LateResizeIsMissed(cols: nat, rows: nat) returns (cond: Condition, steps: seq<Step>)
    ensures CanRun(cond, START, steps)
    ensures var s := Run(cond, START, steps);
      s.waiter.Failed? && s.waiter.ended && cond(s.updates) && s.waiter.screen == |s.updates|
  {
    cond := (updates: seq<Update>) => |updates| > 0;
    var s4, first := EndsUnmatched(cond);
    var last := [Close, ResizeApply(cols, rows), ResizeGiveUp, Snapshot];
    ResizesLate(cond, s4, cols, rows);
    RunConcat(cond, START, first, last);
    steps := first + last;
  }

  lemma EndsUnmatched(cond: Condition) returns (s: State, steps: seq<Step>)
    requires !cond([])
    ensures CanRun(cond, START, steps) && Run(cond, START, steps) == s
    ensures s == START.(feeder := Gone, waiter := Parked)
  {
    steps := [Begin(0), MarkSeen, Check, FeederExit];
    var s1 := Next(cond, START, Begin(0));
    var s2 := Next(cond, s1, MarkSeen);
    var s3 := Next(cond, s2, Check);
    s := Next(cond, s3, FeederExit);
    RunCons(cond, s3, FeederExit, []);
    RunCons(cond, s2, Check, [FeederExit]);
    RunCons(cond, s1, MarkSeen, [Check, FeederExit]);
    RunCons(cond, START, Begin(0), [MarkSeen, Check, FeederExit]);
  }

  lemma ResizesLate(cond: Condition, s: State, cols: nat, rows: nat)
    requires s == START.(feeder := Gone, waiter := Parked)
    ensures var steps := [Close, ResizeApply(cols, rows), ResizeGiveUp, Snapshot];
      CanRun(cond, s, steps) && Run(cond, s, steps).waiter == Failed(true, 1)
        && Run(cond, s, steps).updates == [Resize(cols, rows)]
  {
    var s1 := Next(cond, s, Close);
    var s2 := Next(cond, s1, ResizeApply(cols, rows));
    var s3 := Next(cond, s2, ResizeGiveUp);
    RunCons(cond, s3, Snapshot, []);
    RunCons(cond, s2, ResizeGiveUp, [Snapshot]);
    RunCons(cond, s1, ResizeApply(cols, rows), [ResizeGiveUp, Snapshot]);
    RunCons(cond, s, Close, [ResizeApply(cols, rows), ResizeGiveUp, Snapshot]);
  }

  lemma {:induction false} RunConcat(cond: Condition, s: State, a: seq<Step>, b: seq<Step>)
    requires CanRun(cond, s, a) && CanRun(cond, Run(cond, s, a), b)
    ensures CanRun(cond, s, a + b) && Run(cond, s, a + b) == Run(cond, Run(cond, s, a), b)
    decreases |a|
  {
    if a == [] {
      assert a + b == b;
    } else {
      RunConcat(cond, Next(cond, s, a[0]), a[1..], b);
      assert (a + b)[1..] == a[1..] + b;
    }
  }

  lemma RunCons(cond: Condition, s: State, step: Step, rest: seq<Step>)
    requires Enabled(s, step) && CanRun(cond, Next(cond, s, step), rest)
    ensures CanRun(cond, s, [step] + rest) && Run(cond, s, [step] + rest) == Run(cond, Next(cond, s, step), rest)
  {
    assert ([step] + rest)[1..] == rest;
  }

  // ---------- The raw output tail ----------

  const RAW_TAIL_CAP: nat := 2048

  function LastBytes(cap: nat, s: seq<nat>): (r: seq<nat>)
    ensures |r| <= cap && |r| <= |s| && r == s[|s| - |r|..]
    ensures |r| == cap || r == s
  {
    if |s| <= cap then s else s[|s| - cap..]
  }

  /** Forgetting bytes early loses nothing that a later tail would hold. */
  lemma LastBytesOfPush(cap: nat, s: seq<nat>, bytes: seq<nat>)
    ensures LastBytes(cap, LastBytes(cap, s) + bytes) == LastBytes(cap, s + bytes)
  {
    var kept := LastBytes(cap, s);
    if |kept| < |s| {
      var cut := |s| - |kept|;
      assert (s + bytes)[cut..] == kept + bytes;
      assert |kept + bytes| >= cap;
    }
  }

  lemma TailOfLong(cap: nat, tail: seq<nat>, bytes: seq<nat>)
    requires |bytes| >= cap
    ensures LastBytes(cap, tail + bytes) == bytes[|bytes| - cap..]
  {
    var all := tail + bytes;
    assert all[|all| - cap..] == bytes[|bytes| - cap..];
  }

  lemma TailOfShort(cap: nat, tail: seq<nat>, bytes: seq<nat>, n: nat)
    requires n <= |tail| && |tail| - n + |bytes| <= cap
    requires n > 0 ==> |tail| - n + |bytes| == cap
    ensures tail[n..] + bytes == LastBytes(cap, tail + bytes)
  {
    assert (tail + bytes)[n..] == tail[n..] + bytes;
  }

  class RawTail {
    const cap: nat
    var tail: seq<nat>
    /** Everything ever pushed. */
    ghost var pushed: seq<seq<nat>>

    ghost predicate Valid()
      reads this
    {
      tail == LastBytes(cap, Joined(pushed))
    }

    constructor ()
      ensures Valid() && cap == RAW_TAIL_CAP && pushed == [] && tail == []
    {
      cap, tail, pushed := RAW_TAIL_CAP, [], [];
    }

    /** Over any pushes the tail holds the last bytes of all of them. */
    method Push(bytes: seq<nat>)
      requires Valid()
      modifies this
      ensures Valid() && pushed == old(pushed) + [bytes]
    {
      LastBytesOfPush(cap, Joined(pushed), bytes);
      JoinedPush(pushed, bytes);
      pushed := pushed + [bytes];
      Extend(bytes);
    }

    method Extend(bytes: seq<nat>)
      modifies this`tail
      ensures tail == LastBytes(cap, old(tail) + bytes)
    {
      if |bytes| >= cap {
        tail := bytes[|bytes| - cap..];
        TailOfLong(cap, old(tail), bytes);
        return;
      }
      ghost var n := 0;
      while |tail| + |bytes| > cap
        invariant n <= |old(tail)| && tail == old(tail)[n..]
        invariant n > 0 ==> |tail| + |bytes| >= cap
      {
        tail, n := tail[1..], n + 1;
      }
      TailOfShort(cap, old(tail), bytes, n);
      tail := tail + bytes;
    }
  }
}
