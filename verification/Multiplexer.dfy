/** Request/response multiplexing over one connection: callers share a map from request id to reply
    channel with the reader loop, which removes entries as responses arrive and drains the rest when
    the connection fails. Steps of any number of callers and of the reader interleave freely. */
module Multiplexer {
  const MAX_ID: int := 0x7FFF_FFFF_FFFF_FFFF

  datatype RequestId = Number(n: int) | Name(s: string)

  /** What a reply channel is sent: the outcome of a response, with the id it carried, or an error. */
  datatype Delivery = Answer(id: RequestId, outcome: string) | Closed(failure: string)

  /** How far the caller of a request is. A write that failed still has to withdraw the entry; a
      cancelled caller never does anything again. */
  datatype Phase = Fresh | Unsendable | Waiting | WriteFailed | Withdrawn | Returned | Cancelled(registered: bool)

  datatype Request = Request(id: RequestId, phase: Phase, sent: seq<Delivery>)

  datatype Reader = Reading | Failing(failure: string) | Stopped

  datatype State = State(nextId: int, requests: seq<Request>, pending: map<RequestId, nat>, reader: Reader)

  const START := State(1, [], map[], Reading)

  datatype Step =
    | Allocate | EncodeFails(k: nat) | Register(k: nat) | WriteFails(k: nat) | Withdraw(k: nat)
    | Receive(k: nat) | Cancel(k: nat)
    | Respond(id: RequestId, outcome: string) | ReadFails(failure: string) | Drain

  predicate InPhase(s: State, k: nat, phase: Phase) { k < |s.requests| && s.requests[k].phase == phase }

  predicate Enabled(s: State, step: Step) {
    match step
    case Allocate => true
    case EncodeFails(k) => InPhase(s, k, Fresh)
    case Register(k) => InPhase(s, k, Fresh)
    case WriteFails(k) => InPhase(s, k, Waiting)
    case Withdraw(k) => InPhase(s, k, WriteFailed)
    case Receive(k) => InPhase(s, k, Waiting) && s.requests[k].sent != []
    case Cancel(k) => InPhase(s, k, Fresh) || InPhase(s, k, Waiting) || InPhase(s, k, WriteFailed)
    case Respond(_, _) => s.reader.Reading?
    case ReadFails(_) => s.reader.Reading?
    case Drain => s.reader.Failing?
  }

  function SetPhase(s: State, k: nat, phase: Phase): State
    requires k < |s.requests|
  {
    s.(requests := s.requests[k := s.requests[k].(phase := phase)])
  }

  function Send(r: Request, d: Delivery): Request { r.(sent := r.sent + [d]) }

  /** One message to the channel behind every entry of the map. */
  function SendAll(requests: seq<Request>, pending: map<RequestId, nat>, d: Delivery): (r: seq<Request>)
    ensures |r| == |requests|
    ensures forall k :: 0 <= k < |r| ==> r[k] == if k in pending.Values then Send(requests[k], d) else requests[k]
  {
    seq(|requests|, k requires 0 <= k < |requests| => if k in pending.Values then Send(requests[k], d) else requests[k])
  }

  function Next(s: State, step: Step): State
    requires Enabled(s, step)
  {
    match step
    case Allocate =>
      // The counter is never advanced past the largest 64-bit id.
      if s.nextId >= MAX_ID then s
      else s.(nextId := s.nextId + 1, requests := s.requests + [Request(Number(s.nextId), Fresh, [])])
    case EncodeFails(k) => SetPhase(s, k, Unsendable)
    case Register(k) => SetPhase(s, k, Waiting).(pending := s.pending[s.requests[k].id := k])
    case WriteFails(k) => SetPhase(s, k, WriteFailed)
    case Withdraw(k) =>
      var id := s.requests[k].id;
      SetPhase(s, k, if id in s.pending then Withdrawn else Returned).(pending := s.pending - {id})
    case Receive(k) => SetPhase(s, k, Returned)
    case Cancel(k) => SetPhase(s, k, Cancelled(!s.requests[k].phase.Fresh?))
    case Respond(id, outcome) =>
      if id !in s.pending || s.pending[id] >= |s.requests| then s
      else
        var k := s.pending[id];
        s.(pending := s.pending - {id}, requests := s.requests[k := Send(s.requests[k], Answer(id, outcome))])
    case ReadFails(failure) => s.(reader := Failing(failure))
    case Drain =>
      s.(pending := map[], requests := SendAll(s.requests, s.pending, Closed(s.reader.failure)), reader := Stopped)
  }

  predicate CanRun(s: State, steps: seq<Step>)
    decreases |steps|
  {
    steps == [] || (Enabled(s, steps[0]) && CanRun(Next(s, steps[0]), steps[1..]))
  }

  function Run(s: State, steps: seq<Step>): State
    requires CanRun(s, steps)
    decreases |steps|
  {
    if steps == [] then s else Run(Next(s, steps[0]), steps[1..])
  }

  // ---------- What every step keeps ----------

  function IdOf(k: nat): RequestId { Number(k + 1) }

  predicate Registered(r: Request) {
    !r.phase.Fresh? && !r.phase.Unsendable? && r.phase != Cancelled(false)
  }

  predicate IsPending(s: State, k: nat) { IdOf(k) in s.pending }

  /** A request and its map entry fit together: an entry means that nothing was sent, its absence
      that one message was, unless the request never registered or was withdrawn. */
  predicate Fits(s: State, k: nat)
    requires k < |s.requests|
  {
    var r := s.requests[k];
    && r.id == IdOf(k)
    && (IsPending(s, k) ==>
        && r.sent == [] && s.pending[IdOf(k)] == k
        && (r.phase.Waiting? || r.phase.WriteFailed? || r.phase == Cancelled(true)))
    && (!IsPending(s, k) && Registered(r) && !r.phase.Withdrawn? ==> |r.sent| == 1)
    && (!Registered(r) || r.phase.Withdrawn? ==> !IsPending(s, k) && r.sent == [])
    && (|r.sent| == 1 && r.sent[0].Answer? ==> r.sent[0].id == r.id)
    && (|r.sent| == 1 && r.sent[0].Closed? ==> s.reader.Stopped?)
  }

  ghost predicate Inv(s: State) {
    && s.nextId == |s.requests| + 1 <= MAX_ID
    && (forall id :: id in s.pending ==> s.pending[id] < |s.requests| && id == IdOf(s.pending[id]))
    && (forall k :: 0 <= k < |s.requests| ==> Fits(s, k))
  }

  lemma DrainKeepsFits(s: State, k: nat)
    requires Inv(s) && s.reader.Failing? && k < |s.requests|
    ensures Fits(Next(s, Drain), k)
    ensures k in s.pending.Values <==> IsPending(s, k)
  {
    assert Fits(s, k);
    if IsPending(s, k) {
      assert s.pending[IdOf(k)] in s.pending.Values;
    }
  }

  lemma StepKeepsFits(s: State, step: Step, k: nat)
    requires Inv(s) && Enabled(s, step) && !step.Drain? && k < |Next(s, step).requests|
    ensures Fits(Next(s, step), k)
  {
    if k < |s.requests| {
      assert Fits(s, k);
    }
    if step.Respond? && step.id in s.pending {
      assert step.id == IdOf(s.pending[step.id]);
    }
    if (step.Withdraw? || step.Register?) && step.k < |s.requests| {
      assert Fits(s, step.k);
    }
  }

  lemma StepKeepsInv(s: State, step: Step)
    requires Inv(s) && Enabled(s, step)
    ensures Inv(Next(s, step))
  {
    var t := Next(s, step);
    forall k | 0 <= k < |t.requests| ensures Fits(t, k) {
      if step.Drain? {
        DrainKeepsFits(s, k);
      } else {
        StepKeepsFits(s, step, k);
      }
    }
    if step.Register? {
      assert Fits(s, step.k);
    }
  }

  lemma {:induction false} RunKeepsInv(s: State, steps: seq<Step>)
    requires Inv(s) && CanRun(s, steps)
    ensures Inv(Run(s, steps))
    decreases |steps|
  {
    if steps != [] {
      StepKeepsInv(s, steps[0]);
      RunKeepsInv(Next(s, steps[0]), steps[1..]);
    }
  }

  /** No entry of the map is ever overwritten, so no channel is dropped with its caller waiting. */
  lemma RegisterOverwritesNothing(steps: seq<Step>, k: nat)
    requires CanRun(START, steps) && Enabled(Run(START, steps), Register(k))
    ensures Run(START, steps).requests[k].id !in Run(START, steps).pending
  {
    RunKeepsInv(START, steps);
    assert Fits(Run(START, steps), k);
  }

  // ---------- The fate of one request ----------

  /** What happens to one request, told without the map. */
  datatype Fate = Unregistered | Pending | Answered(outcome: string) | ClosedWith(failure: string) | Removed

  function FateStep(k: nat, fate: Fate, reader: Reader, step: Step): Fate {
    match step
    case Register(j) => if j == k then Pending else fate
    case Respond(id, outcome) => if fate.Pending? && id == IdOf(k) then Answered(outcome) else fate
    case Drain => if fate.Pending? && reader.Failing? then ClosedWith(reader.failure) else fate
    case Withdraw(j) => if fate.Pending? && j == k then Removed else fate
    case _ => fate
  }

  function ReaderStep(reader: Reader, step: Step): Reader {
    match step
    case ReadFails(failure) => Failing(failure)
    case Drain => Stopped
    case _ => reader
  }

  /** The first response to its id, withdrawal or drain after its registration decides. */
  function FateOf(k: nat, fate: Fate, reader: Reader, steps: seq<Step>): Fate
    decreases |steps|
  {
    if steps == [] then fate
    else FateOf(k, FateStep(k, fate, reader, steps[0]), ReaderStep(reader, steps[0]), steps[1..])
  }

  /** The same, read off the shared state. */
  function Status(s: State, k: nat): Fate {
    if k >= |s.requests| || !Registered(s.requests[k]) then Unregistered
    else if IsPending(s, k) then Pending
    else if s.requests[k].sent == [] then Removed
    else if s.requests[k].sent[0].Answer? then Answered(s.requests[k].sent[0].outcome)
    else ClosedWith(s.requests[k].sent[0].failure)
  }

  lemma StepFollowsFate(s: State, step: Step, k: nat)
    requires Inv(s) && Enabled(s, step)
    ensures Status(Next(s, step), k) == FateStep(k, Status(s, k), s.reader, step)
    ensures Next(s, step).reader == ReaderStep(s.reader, step)
  {
    var t := Next(s, step);
    if k < |s.requests| {
      assert Fits(s, k);
      if step.Drain? {
        DrainKeepsFits(s, k);
      }
      if step.Respond? && step.id in s.pending {
        assert step.id == IdOf(s.pending[step.id]);
      }
      if (step.Withdraw? || step.Register?) && step.k < |s.requests| {
        assert Fits(s, step.k);
      }
    }
  }

  /** The shared map gives every request the fate it would have alone, in every run. */
  lemma {:induction false} RunFollowsFate(s: State, steps: seq<Step>, k: nat)
    requires Inv(s) && CanRun(s, steps)
    ensures Status(Run(s, steps), k) == FateOf(k, Status(s, k), s.reader, steps)
    decreases |steps|
  {
    if steps != [] {
      StepFollowsFate(s, steps[0], k);
      StepKeepsInv(s, steps[0]);
      RunFollowsFate(Next(s, steps[0]), steps[1..], k);
    }
  }

  predicate Decided(fate: Fate) { fate.Answered? || fate.ClosedWith? || fate.Removed? }

  /** Safety of every run: ids are distinct, a channel is sent to at most once and only with the
      outcome of a response to its own id or with the failure, and each registered request is
      exactly one of pending, answered, closed and withdrawn, as its own history says. */
  lemma MultiplexingIsSafe(steps: seq<Step>, k: nat)
    requires CanRun(START, steps) && k < |Run(START, steps).requests|
    ensures var s := Run(START, steps);
      var r := s.requests[k];
      && (forall j :: 0 <= j < |s.requests| && s.requests[j].id == r.id ==> j == k)
      && Status(s, k) == FateOf(k, Unregistered, Reading, steps)
      && (Status(s, k).Unregistered? <==> !Registered(r))
      && (Status(s, k).Pending? <==> r.id in s.pending)
      && (Status(s, k).Removed? <==> r.phase.Withdrawn?)
      && (forall o :: Status(s, k) == Answered(o) <==> r.sent == [Answer(r.id, o)])
      && (forall f :: Status(s, k) == ClosedWith(f) <==> r.sent == [Closed(f)])
      && (r.sent == [] <==> Status(s, k).Unregistered? || Status(s, k).Pending? || Status(s, k).Removed?)
  {
    var s := Run(START, steps);
    RunKeepsInv(START, steps);
    RunFollowsFate(START, steps, k);
    assert Fits(s, k);
    forall j | 0 <= j < |s.requests| && s.requests[j].id == s.requests[k].id ensures j == k {
      assert Fits(s, j);
    }
  }

  /** A waiting caller always either has an entry or a message: its channel never just disappears. */
  lemma NoCallerIsAbandoned(steps: seq<Step>, k: nat)
    requires CanRun(START, steps) && InPhase(Run(START, steps), k, Waiting)
    ensures var s := Run(START, steps); IsPending(s, k) <==> s.requests[k].sent == []
  {
    RunKeepsInv(START, steps);
    assert Fits(Run(START, steps), k);
  }

  /** Draining decides everything registered before it. */
  lemma DrainDecidesAll(steps: seq<Step>, k: nat)
    requires CanRun(START, steps) && Enabled(Run(START, steps), Drain)
    ensures var s := Run(START, steps);
      var t := Next(s, Drain);
      && t.pending == map[]
      && Status(t, k) == if Status(s, k).Pending? then ClosedWith(s.reader.failure) else Status(s, k)
  {
    RunKeepsInv(START, steps);
    StepFollowsFate(Run(START, steps), Drain, k);
  }

  /** Decided is for good. */
  lemma {:induction false} DecidedStays(s: State, steps: seq<Step>, k: nat)
    requires Inv(s) && CanRun(s, steps) && Decided(Status(s, k))
    ensures Status(Run(s, steps), k) == Status(s, k)
    decreases |steps|
  {
    if steps != [] {
      assert Fits(s, k);
      StepFollowsFate(s, steps[0], k);
      StepKeepsInv(s, steps[0]);
      DecidedStays(Next(s, steps[0]), steps[1..], k);
    }
  }

  /** Once the reader has stopped, a request can still register, and then nothing but its own
      withdrawal ever decides it: it is never answered and never closed. */
  lemma {:induction false} RegisteredTooLate(s: State, steps: seq<Step>, k: nat)
    requires Inv(s) && CanRun(s, steps) && s.reader.Stopped? && !Decided(Status(s, k))
    ensures !Status(Run(s, steps), k).Answered? && !Status(Run(s, steps), k).ClosedWith?
    ensures Status(s, k).Pending? && Withdraw(k) !in steps ==> Status(Run(s, steps), k).Pending?
    decreases |steps|
  {
    if steps != [] {
      StepFollowsFate(s, steps[0], k);
      StepKeepsInv(s, steps[0]);
      var t := Next(s, steps[0]);
      if Decided(Status(t, k)) {
        DecidedStays(t, steps[1..], k);
      } else {
        RegisteredTooLate(t, steps[1..], k);
      }
    }
  }

  /** The request registers in `steps` and does not withdraw afterwards. */
  ghost predicate StaysRegistered(k: nat, steps: seq<Step>) {
    exists i :: 0 <= i < |steps| && steps[i] == Register(k) && Withdraw(k) !in steps[i..]
  }

  /** It does so behind the drain. */
  ghost predicate RegistersLate(k: nat, steps: seq<Step>) {
    exists j :: 0 <= j < |steps| && steps[j] == Drain && StaysRegistered(k, steps[j + 1..])
  }

  lemma StaysRegisteredStep(k: nat, steps: seq<Step>)
    requires steps != []
    ensures StaysRegistered(k, steps) <==>
      (steps[0] == Register(k) && Withdraw(k) !in steps) || StaysRegistered(k, steps[1..])
  {
    var rest := steps[1..];
    if i :| 0 <= i < |steps| && steps[i] == Register(k) && Withdraw(k) !in steps[i..] {
      if i == 0 {
        assert steps[0..] == steps;
      } else {
        assert rest[i - 1] == Register(k) && rest[i - 1..] == steps[i..];
      }
    }
    if i :| 0 <= i < |rest| && rest[i] == Register(k) && Withdraw(k) !in rest[i..] {
      assert steps[i + 1] == Register(k) && steps[i + 1..] == rest[i..];
    }
    if steps[0] == Register(k) && Withdraw(k) !in steps {
      assert steps[0..] == steps;
    }
  }

  lemma RegistersLateStep(k: nat, steps: seq<Step>)
    requires steps != []
    ensures RegistersLate(k, steps)
      <==> (steps[0] == Drain && StaysRegistered(k, steps[1..])) || RegistersLate(k, steps[1..])
  {
    var rest := steps[1..];
    if j :| 0 <= j < |steps| && steps[j] == Drain && StaysRegistered(k, steps[j + 1..]) {
      if j > 0 {
        assert rest[j - 1] == Drain && rest[j..] == steps[j + 1..];
      }
    }
    if j :| 0 <= j < |rest| && rest[j] == Drain && StaysRegistered(k, rest[j + 1..]) {
      assert steps[j + 1] == Drain && steps[j + 2..] == rest[j + 1..];
    }
  }

  /** Behind a stopped reader a request is pending exactly when it was or registers, and is not withdrawn. */
  lemma {:induction false} PendingBehindReader(s: State, steps: seq<Step>, k: nat)
    requires Inv(s) && CanRun(s, steps) && s.reader.Stopped?
    ensures Status(Run(s, steps), k).Pending? <==>
      (Status(s, k).Pending? && Withdraw(k) !in steps) || StaysRegistered(k, steps)
    decreases |steps|
  {
    if steps != [] {
      StepFollowsFate(s, steps[0], k);
      StepKeepsInv(s, steps[0]);
      PendingBehindReader(Next(s, steps[0]), steps[1..], k);
      StaysRegisteredStep(k, steps);
      assert steps == [steps[0]] + steps[1..];
    }
  }

  lemma {:induction false} PendingAfterStop(s: State, steps: seq<Step>, k: nat)
    requires Inv(s) && CanRun(s, steps) && !s.reader.Stopped? && Run(s, steps).reader.Stopped?
    ensures Status(Run(s, steps), k).Pending? <==> RegistersLate(k, steps)
    decreases |steps|
  {
    var t, rest := Next(s, steps[0]), steps[1..];
    StepFollowsFate(s, steps[0], k);
    StepKeepsInv(s, steps[0]);
    RegistersLateStep(k, steps);
    if steps[0] == Drain {
      PendingBehindReader(t, rest, k);
      NoSecondDrain(t, rest);
    } else {
      PendingAfterStop(t, rest, k);
    }
  }

  lemma {:induction false} NoSecondDrain(s: State, steps: seq<Step>)
    requires CanRun(s, steps) && s.reader.Stopped?
    ensures Drain !in steps
    decreases |steps|
  {
    if steps != [] {
      NoSecondDrain(Next(s, steps[0]), steps[1..]);
      assert steps == [steps[0]] + steps[1..];
    }
  }

  /** Once the reader has stopped, the pending requests are exactly those that registered behind the
      drain and did not withdraw: nothing else ever decides them, and nothing else is left. */
  lemma PendingAfterStopIff(steps: seq<Step>, k: nat)
    requires CanRun(START, steps) && Run(START, steps).reader.Stopped?
    ensures Status(Run(START, steps), k).Pending? <==> RegistersLate(k, steps)
  {
    PendingAfterStop(START, steps, k);
  }

  lemma RunCons(s: State, step: Step, rest: seq<Step>)
    requires Enabled(s, step) && CanRun(Next(s, step), rest)
    ensures CanRun(s, [step] + rest) && Run(s, [step] + rest) == Run(Next(s, step), rest)
  {
    assert ([step] + rest)[1..] == rest;
  }

  /** That happens: a request allocated before the connection fails registers after the drain. From
      then on it waits for good unless its own write fails. */
  lemma LateRequestHangs(failure: string, later: seq<Step>)
    ensures var steps := [Allocate, ReadFails(failure), Drain, Register(0)];
      && CanRun(START, steps)
      && var s := Run(START, steps);
      && s.reader.Stopped? && Status(s, 0).Pending? && InPhase(s, 0, Waiting)
      && (CanRun(s, later) && Withdraw(0) !in later ==> Status(Run(s, later), 0).Pending?)
  {
    var s1 := Next(START, Allocate);
    var s2 := Next(s1, ReadFails(failure));
    var s3 := Next(s2, Drain);
    var s := Next(s3, Register(0));
    RunCons(s3, Register(0), []);
    RunCons(s2, Drain, [Register(0)]);
    RunCons(s1, ReadFails(failure), [Drain, Register(0)]);
    RunCons(START, Allocate, [ReadFails(failure), Drain, Register(0)]);
    assert [Allocate] + [ReadFails(failure), Drain, Register(0)] == [Allocate, ReadFails(failure), Drain, Register(0)];
    RunKeepsInv(START, [Allocate, ReadFails(failure), Drain, Register(0)]);
    if CanRun(s, later) && Withdraw(0) !in later {
      RegisteredTooLate(s, later, 0);
    }
  }

  /** Ids run out instead of wrapping around. */
  lemma IdsRunOut(steps: seq<Step>)
    requires CanRun(START, steps)
    ensures var s := Run(START, steps);
      Next(s, Allocate) == s <==> |s.requests| == MAX_ID - 1
  {
    RunKeepsInv(START, steps);
    var s := Run(START, steps);
    assert |s.requests + [Request(Number(s.nextId), Fresh, [])]| == |s.requests| + 1;
  }
}
