/** The steps of electron/logging/logger.ts between awaits, and what every interleaving keeps,
    stream failure included. Writers waiting for capacity are interchangeable, so they are counted. */
module TraceQueue {
  import opened Options

  datatype State = State(
    max: nat,
    pending: int,
    queue: seq<nat>,
    inFlight: Option<nat>,
    nextSeq: nat,
    closing: bool,
    closed: bool,
    failed: bool,
    sleeping: nat,
    woken: nat,
    admitted: nat,
    idleWaiters: nat,
    lines: seq<nat>,
    resolved: set<nat>,
    rejected: set<nat>)

  function Opened(max: nat): State {
    State(max, 0, [], None, 1, false, false, false, 0, 0, 0, 0, [], {}, {})
  }

  datatype Step =
    | StartWrite
    | Resume
    | Proceed
    | LineWritten(ok: bool)
    | StreamError
    | StartDispose
    | StreamEnded

  /** #releaseCapacity, n times. */
  function Release(s: State, n: nat): State {
    var waking := if n < s.sleeping then n else s.sleeping;
    s.(pending := s.pending - n, sleeping := s.sleeping - waking, woken := s.woken + waking)
  }

  function WakeIdle(s: State): State {
    if s.pending == 0 then s.(idleWaiters := 0) else s
  }

  /** One turn of the loop in #acquireCapacity. */
  function Acquire(s: State): State {
    if s.pending >= s.max then s.(sleeping := s.sleeping + 1)
        else s.(pending := s.pending + 1, admitted := s.admitted + 1)
  }

  /** #rejectQueued: every queued write fails and frees its slot, then all waiting writers wake. */
  function RejectQueued(s: State): State {
    var freed := Release(s, |s.queue|);
    WakeIdle(freed.(rejected := s.rejected + (set i | 0 <= i < |s.queue| :: s.queue[i]), queue := [],
                    sleeping := 0, woken := freed.woken + freed.sleeping))
  }

  /** The state whose queue is rejected when a line fails. */
  function Failing(s: State): State
    requires s.inFlight.Some?
  {
    s.(inFlight := None, failed := true, rejected := s.rejected + {s.inFlight.value})
  }

  /** The write of the line in flight is over; if it failed, so does all that is queued. */
  function SettleLine(s: State, ok: bool): State
    requires s.inFlight.Some?
  {
    if ok then s.(inFlight := None, resolved := s.resolved + {s.inFlight.value}) else RejectQueued(Failing(s))
  }

  /** The pump takes the next event and hands its line to the stream. */
  function TakeNext(s: State): State
    requires s.queue != []
  {
    s.(inFlight := Some(s.queue[0]), queue := s.queue[1..], lines := s.lines + [s.queue[0]])
  }

  predicate Stopped(s: State) {
    s.closing || s.closed || s.failed
  }

  predicate Enabled(s: State, step: Step) {
    match step
    case Resume => s.woken > 0
    case Proceed => s.admitted > 0
    case LineWritten(_) => s.inFlight.Some?
    case StreamEnded => s.closing && s.idleWaiters == 0
    case _ => true
  }

  function Apply(s: State, step: Step): State
    requires Enabled(s, step)
  {
    match step
    case StartWrite => if Stopped(s) then s else Acquire(s)
    case Resume => Acquire(s.(woken := s.woken - 1))
    case Proceed =>
      var t := s.(admitted := s.admitted - 1);
      if Stopped(s) then Release(t, 1)
      else
        var queued := t.(queue := s.queue + [s.nextSeq], nextSeq := s.nextSeq + 1);
        if s.inFlight.Some? then queued else TakeNext(queued)
    case LineWritten(ok) =>
      var freed := Release(SettleLine(s, ok), 1);
      if freed.failed || freed.queue == [] then WakeIdle(freed) else TakeNext(freed)
    case StreamError => RejectQueued(s.(failed := true))
    case StartDispose => if s.closing then s else s.(closing := true, idleWaiters := if s.pending > 0 then 1 else 0)
    case StreamEnded => s.(closed := true)
  }

  function InFlightCount(s: State): nat {
    if s.inFlight.Some? then 1 else 0
  }

  /** Every slot taken belongs to a queued, a written or an admitted event, and there are enough. */
  ghost predicate SlotsAccounted(s: State) {
    && s.pending == |s.queue| + InFlightCount(s) + s.admitted
    && s.pending <= s.max
  }

  /** No wakeup is lost: whoever sleeps, the slots are full or about to be claimed by woken writers. */
  ghost predicate NoLostWakeup(s: State) {
    s.sleeping > 0 ==> s.pending + s.woken >= s.max
  }

  /** The stream has been given lines 1, 2, 3 and so on, and the queue goes on where it stands. */
  ghost predicate InOrder(s: State) {
    && (forall i :: 0 <= i < |s.lines| ==> s.lines[i] == i + 1)
    && (s.inFlight.Some? ==> s.inFlight.value == |s.lines| > 0)
    && (s.queue != [] ==> s.inFlight.Some? && !s.failed)
    && (!s.failed ==>
          && |s.lines| + |s.queue| + 1 == s.nextSeq
          && forall i :: 0 <= i < |s.queue| ==> s.queue[i] == |s.lines| + 1 + i)
    && |s.lines| < s.nextSeq
  }

  /** Every event created is in exactly one place, and a resolved one has been written. */
  ghost predicate Settled(s: State) {
    && s.resolved !! s.rejected
    && (forall n :: n in s.resolved ==> 1 <= n <= |s.lines| && s.inFlight != Some(n))
    && (forall n :: n in s.rejected ==> 1 <= n < s.nextSeq && s.inFlight != Some(n) && s.failed)
    && (forall n: nat :: 1 <= n <= |s.lines| && s.inFlight != Some(n) ==> n in s.resolved || n in s.rejected)
    && (s.failed ==> forall n: nat :: |s.lines| < n < s.nextSeq ==> n in s.rejected)
  }

  ghost predicate Inv(s: State) {
    && s.max >= 1 && s.nextSeq >= 1
    && SlotsAccounted(s) && NoLostWakeup(s) && InOrder(s) && Settled(s)
  }

  /** Rejecting the queue after a failure: nothing is left to write, and no slot of it is lost. */
  lemma RejectQueuedKeepsInv(s: State)
    requires s.max >= 1 && s.nextSeq >= 1 && s.failed && SlotsAccounted(s) && NoLostWakeup(s)
    requires forall i :: 0 <= i < |s.lines| ==> s.lines[i] == i + 1
    requires s.inFlight.Some? ==> s.inFlight.value == |s.lines| > 0
    requires |s.lines| < s.nextSeq
    requires s.queue != [] ==>
      && |s.lines| + |s.queue| + 1 == s.nextSeq
      && forall i :: 0 <= i < |s.queue| ==> s.queue[i] == |s.lines| + 1 + i
    requires s.queue == [] ==> forall n: nat :: |s.lines| < n < s.nextSeq ==> n in s.rejected
    requires s.resolved !! s.rejected
    requires forall n :: n in s.resolved ==> 1 <= n <= |s.lines| && s.inFlight != Some(n)
    requires forall n :: n in s.rejected ==> 1 <= n < s.nextSeq && s.inFlight != Some(n)
    requires forall n: nat :: 1 <= n <= |s.lines| && s.inFlight != Some(n) ==> n in s.resolved || n in s.rejected
    ensures Inv(RejectQueued(s))
  {
    var t := RejectQueued(s);
    forall n: nat | |s.lines| < n < s.nextSeq ensures n in t.rejected {
      if s.queue != [] {
        assert s.queue[n - |s.lines| - 1] == n;
      }
    }
  }

  lemma StreamErrorKeepsInv(s: State)
    requires Inv(s)
    ensures Inv(Apply(s, StreamError))
  {
    RejectQueuedKeepsInv(s.(failed := true));
  }

  lemma TakeNextKeepsInv(s: State)
    requires s.max >= 1 && s.nextSeq >= 1 && !s.failed && s.inFlight.None? && s.queue != []
    requires SlotsAccounted(s) && NoLostWakeup(s) && Settled(s)
    requires forall i :: 0 <= i < |s.lines| ==> s.lines[i] == i + 1
    requires |s.lines| + |s.queue| + 1 == s.nextSeq
    requires forall i :: 0 <= i < |s.queue| ==> s.queue[i] == |s.lines| + 1 + i
    ensures Inv(TakeNext(s))
  {
  }

  lemma ProceedKeepsInv(s: State)
    requires Inv(s) && s.admitted > 0
    ensures Inv(Apply(s, Proceed))
  {
    if !Stopped(s) && s.inFlight.None? {
      TakeNextKeepsInv(s.(admitted := s.admitted - 1, queue := s.queue + [s.nextSeq], nextSeq := s.nextSeq + 1));
    }
  }

  lemma FailedLineKeepsInv(s: State)
    requires Inv(s) && s.inFlight.Some?
    ensures Inv(Apply(s, LineWritten(false)))
  {
    var t := Apply(s, LineWritten(false));
    assert SlotsAccounted(t) && NoLostWakeup(t) && InOrder(t) by {
      hide Settled;
    }
    assert Settled(t) by {
      hide SlotsAccounted, NoLostWakeup;
      forall n: nat | |s.lines| < n < s.nextSeq ensures n in t.rejected {
        if s.queue != [] {
          assert s.queue[n - |s.lines| - 1] == n;
        }
      }
    }
    hide SlotsAccounted, NoLostWakeup, InOrder, Settled;
  }

  /** A line that reached the stream, before the pump goes on. */
  lemma SettledLine(s: State) returns (freed: State)
    requires Inv(s) && s.inFlight.Some?
    ensures freed == Release(s.(inFlight := None, resolved := s.resolved + {s.inFlight.value}), 1)
    ensures SlotsAccounted(freed) && NoLostWakeup(freed) && Settled(freed)
    ensures InOrder(freed) || (!freed.failed && freed.queue != [])
  {
    freed := Release(s.(inFlight := None, resolved := s.resolved + {s.inFlight.value}), 1);
    assert SlotsAccounted(freed) && NoLostWakeup(freed) by {
      hide Settled, InOrder;
    }
    assert Settled(freed) by {
      hide SlotsAccounted, NoLostWakeup;
    }
    hide SlotsAccounted, NoLostWakeup, Settled;
  }

  lemma WrittenLineKeepsInv(s: State)
    requires Inv(s) && s.inFlight.Some?
    ensures Inv(Apply(s, LineWritten(true)))
  {
    var freed := SettledLine(s);
    if freed.failed || freed.queue == [] {
      hide SlotsAccounted, NoLostWakeup, Settled, InOrder;
      BookkeepingKeepsInv(freed, WakeIdle(freed));
    } else {
      assert InOrder(s);
      hide SlotsAccounted, NoLostWakeup, Settled;
      TakeNextKeepsInv(freed);
    }
  }

  /** Order and settlement are about the events, not about the slots and who waits for them. */
  lemma EventsKept(s: State, t: State)
    requires InOrder(s) && Settled(s)
    requires t.queue == s.queue && t.inFlight == s.inFlight && t.nextSeq == s.nextSeq && t.failed == s.failed
    requires t.lines == s.lines && t.resolved == s.resolved && t.rejected == s.rejected
    ensures InOrder(t) && Settled(t)
  {
  }

  lemma StartWriteKeepsInv(s: State)
    requires Inv(s)
    ensures Inv(Acquire(s))
  {
    EventsKept(s, Acquire(s));
    hide InOrder, Settled;
  }

  lemma ResumeKeepsInv(s: State)
    requires Inv(s) && s.woken > 0
    ensures Inv(Apply(s, Resume))
  {
    EventsKept(s, Apply(s, Resume));
    hide InOrder, Settled;
  }

  /** Closing and waiting are no part of it. */
  lemma BookkeepingKeepsInv(s: State, t: State)
    requires Inv(s) && t == s.(closing := t.closing, closed := t.closed, idleWaiters := t.idleWaiters)
    ensures Inv(t)
  {
  }

  /** Every enabled step keeps the invariant. */
  lemma StepKeepsInv(s: State, step: Step)
    requires Inv(s) && Enabled(s, step)
    ensures Inv(Apply(s, step))
  {
    hide Inv;
    match step
    case Proceed => ProceedKeepsInv(s);
    case LineWritten(ok) =>
      if ok {
        WrittenLineKeepsInv(s);
      } else {
        FailedLineKeepsInv(s);
      }
    case StreamError => StreamErrorKeepsInv(s);
    case StartWrite => StartWriteKeepsInv(s);
    case Resume => ResumeKeepsInv(s);
    case StartDispose => BookkeepingKeepsInv(s, Apply(s, step));
    case StreamEnded => BookkeepingKeepsInv(s, Apply(s, step));
  }

  function After(s: State, steps: seq<Step>): State
    requires Interleaving(s, steps)
    decreases |steps|
  {
    if steps == [] then s else After(Apply(s, steps[0]), steps[1..])
  }

  predicate Interleaving(s: State, steps: seq<Step>)
    decreases |steps|
  {
    steps == [] || (Enabled(s, steps[0]) && Interleaving(Apply(s, steps[0]), steps[1..]))
  }

  /** What a rejection leaves alone. */
  lemma RejectQueuedOnlyAdds(s: State)
    ensures var t := RejectQueued(s);
            && t.max == s.max && t.lines == s.lines && t.nextSeq == s.nextSeq && t.inFlight == s.inFlight
            && t.failed == s.failed && t.queue == []
            && t.resolved == s.resolved && s.rejected <= t.rejected
            && t.pending == s.pending - |s.queue| && t.idleWaiters == (if t.pending == 0 then 0 else s.idleWaiters)
  {
  }

  lemma StepKeepsMax(s: State, step: Step)
    requires Enabled(s, step)
    ensures Apply(s, step).max == s.max
  {
    RejectionsOnlyAdd(s);
    hide RejectQueued;
  }

  /** Both rejections a step may make: of the queue alone, and with the line in flight. */
  lemma RejectionsOnlyAdd(s: State)
    ensures var t := RejectQueued(s.(failed := true));
            && t.max == s.max && t.lines == s.lines && t.nextSeq == s.nextSeq
            && t.resolved == s.resolved && s.rejected <= t.rejected
            && t.idleWaiters == (if t.pending == 0 then 0 else s.idleWaiters)
    ensures s.inFlight.Some? ==>
              var t := RejectQueued(Failing(s));
              && t.max == s.max && t.lines == s.lines && t.nextSeq == s.nextSeq && t.failed && t.queue == []
              && t.resolved == s.resolved && s.rejected <= t.rejected
              && t.pending == s.pending - |s.queue| && t.idleWaiters == (if t.pending == 0 then 0 else s.idleWaiters)
  {
    RejectQueuedOnlyAdds(s.(failed := true));
    if s.inFlight.Some? {
      RejectQueuedOnlyAdds(Failing(s));
    }
    hide RejectQueued;
  }

  lemma {:induction false} InterleavingsKeepInv(s: State, steps: seq<Step>)
    requires Inv(s) && Interleaving(s, steps)
    ensures Inv(After(s, steps)) && After(s, steps).max == s.max
    decreases |steps|
  {
    if steps != [] {
      StepKeepsInv(s, steps[0]);
      StepKeepsMax(s, steps[0]);
      hide Apply, Inv, Enabled;
      InterleavingsKeepInv(Apply(s, steps[0]), steps[1..]);
    }
  }

  /** In every interleaving of writers, pump, stream failure and disposal: the slots are accounted for
      and never exceed the maximum, no writer sleeps while a slot is free and unclaimed, the stream has
      been given the lines 1, 2, 3 and so on, and a write is resolved only if its line was written. */
  lemma EveryReachableQueue(max: nat, steps: seq<Step>)
    requires max >= 1 && Interleaving(Opened(max), steps)
    ensures var s := After(Opened(max), steps);
            && s.pending == |s.queue| + InFlightCount(s) + s.admitted <= max
            && (s.sleeping > 0 ==> s.pending + s.woken >= max)
            && (forall i :: 0 <= i < |s.lines| ==> s.lines[i] == i + 1)
            && (forall n :: n in s.resolved ==> 1 <= n <= |s.lines|)
            && s.resolved !! s.rejected
  {
    InterleavingsKeepInv(Opened(max), steps);
  }

  /** As long as a writer sleeps, something else can still run that frees or claims a slot. */
  lemma SleepersAreNotStuck(s: State)
    requires Inv(s) && s.sleeping > 0
    ensures s.woken > 0 || s.admitted > 0 || s.inFlight.Some?
    ensures s.pending < s.max ==> Enabled(s, Resume)
  {
  }

  ghost predicate OnlyAdds(s: State, t: State) {
    && s.lines <= t.lines && s.resolved <= t.resolved && s.rejected <= t.rejected
    && (s.failed ==> t.lines == s.lines && t.nextSeq == s.nextSeq)
  }

  lemma LineOnlyAdds(s: State, ok: bool)
    requires s.inFlight.Some? && (s.failed ==> s.queue == [])
    ensures OnlyAdds(s, Apply(s, LineWritten(ok)))
  {
    RejectionsOnlyAdd(s);
    hide RejectQueued;
  }

  lemma ProceedOnlyAdds(s: State)
    requires s.admitted > 0
    ensures OnlyAdds(s, Apply(s, Proceed))
  {
  }

  /** What was given to the stream is never taken back, and what is settled stays settled. */
  lemma StepsOnlyAdd(s: State, step: Step)
    requires Inv(s) && Enabled(s, step)
    ensures s.lines <= Apply(s, step).lines
    ensures s.resolved <= Apply(s, step).resolved && s.rejected <= Apply(s, step).rejected
    ensures s.failed ==> Apply(s, step).lines == s.lines && Apply(s, step).nextSeq == s.nextSeq
  {
    assert s.failed ==> s.queue == [];
    hide Inv;
    match step
    case LineWritten(ok) =>
      hide Apply;
      LineOnlyAdds(s, ok);
    case Proceed =>
      hide Apply;
      ProceedOnlyAdds(s);
    case StreamError => RejectionsOnlyAdd(s);
    case _ =>
  }

  /** A write is settled by the report on its own line, or with the queue when the stream fails: which writes each
      step resolves and rejects, and when the logger has failed. */
  lemma SettledExactly(s: State, step: Step)
    requires Enabled(s, step)
    ensures Apply(s, step).resolved ==
            if step == LineWritten(true) then s.resolved + {s.inFlight.value} else s.resolved
    ensures Apply(s, step).failed <==> s.failed || step in {LineWritten(false), StreamError}
    ensures forall n :: n in Apply(s, step).rejected <==>
              || n in s.rejected
              || (step == LineWritten(false) && s.inFlight == Some(n))
              || (step in {LineWritten(false), StreamError} && n in s.queue)
  {
    match step
    case LineWritten(ok) => LineSettlesExactly(s, ok);
    case StreamError => RejectedExactly(s.(failed := true));
    case _ =>
  }

  lemma RejectedExactly(s: State)
    ensures forall n :: n in RejectQueued(s).rejected <==> n in s.rejected || n in s.queue
    ensures RejectQueued(s).resolved == s.resolved && RejectQueued(s).failed == s.failed
    ensures RejectQueued(s).queue == []
  {
  }

  lemma LineSettlesExactly(s: State, ok: bool)
    requires s.inFlight.Some?
    ensures var t := Apply(s, LineWritten(ok));
            && t.resolved == (if ok then s.resolved + {s.inFlight.value} else s.resolved)
            && (t.failed <==> s.failed || !ok)
            && forall n :: n in t.rejected <==> n in s.rejected || (!ok && (s.inFlight == Some(n) || n in s.queue))
  {
    RejectedExactly(Failing(s));
    hide RejectQueued;
  }

  /** At some moment of the run the line of write `n` is reported as written. */
  ghost predicate WrittenIn(s: State, steps: seq<Step>, n: nat)
    requires Interleaving(s, steps)
    decreases |steps|
  {
    && steps != []
    && ((steps[0] == LineWritten(true) && s.inFlight == Some(n)) || WrittenIn(Apply(s, steps[0]), steps[1..], n))
  }

  /** Over every run a write comes to be resolved exactly if its own line is reported as written. */
  lemma {:induction false} ResolvedExactlyIfWritten(s: State, steps: seq<Step>, n: nat)
    requires Interleaving(s, steps)
    ensures n in After(s, steps).resolved <==> n in s.resolved || WrittenIn(s, steps, n)
    decreases |steps|
  {
    if steps != [] {
      SettledExactly(s, steps[0]);
      assert steps[0].LineWritten? ==> s.inFlight.Some?;
      hide Apply, Enabled;
      ResolvedExactlyIfWritten(Apply(s, steps[0]), steps[1..], n);
    }
  }

  /** The logger has no work left and takes none, and disposal still waits: only an error that the stream might
      report of its own would wake it. */
  predicate DisposalStuck(s: State) {
    && s.idleWaiters > 0
    && !Enabled(s, Resume) && !Enabled(s, Proceed) && !Enabled(s, LineWritten(true)) && !Enabled(s, StreamEnded)
    && Apply(s, StartWrite) == s && Apply(s, StartDispose) == s
    && Apply(s, StreamError).idleWaiters == 0
  }

  /** Without a stream error nothing that is enabled changes a stuck queue. */
  lemma StuckUntilStreamError(s: State, step: Step)
    requires Inv(s) && DisposalStuck(s) && Enabled(s, step) && !step.StreamError?
    ensures Apply(s, step) == s
  {
  }

  lemma {:induction false} StuckForGood(s: State, steps: seq<Step>)
    requires Inv(s) && DisposalStuck(s) && Interleaving(s, steps)
    requires forall i :: 0 <= i < |steps| ==> !steps[i].StreamError?
    ensures After(s, steps) == s
    decreases |steps|
  {
    if steps != [] {
      StuckUntilStreamError(s, steps[0]);
      hide Apply, Enabled, DisposalStuck, Inv;
      StuckForGood(s, steps[1..]);
    }
  }

  /** Whoever waits for idleness waits for slots that are still taken. */
  predicate IdleWaitIsJustified(s: State) {
    s.idleWaiters > 0 ==> s.pending > 0
  }

  /** A writer that got its slot, finds the logger stopped and gives back the last slot. */
  predicate LastSlotGivenBackUnused(s: State, step: Step) {
    step.Proceed? && Stopped(s) && s.pending == 1 && s.idleWaiters > 0
  }

  lemma LineTellsIdle(s: State, ok: bool)
    requires SlotsAccounted(s) && s.inFlight.Some? && IdleWaitIsJustified(s)
    ensures IdleWaitIsJustified(Apply(s, LineWritten(ok)))
  {
    RejectionsOnlyAdd(s);
    hide RejectQueued;
  }

  lemma ProceedTellsIdle(s: State)
    requires SlotsAccounted(s) && s.admitted > 0 && IdleWaitIsJustified(s)
    ensures IdleWaitIsJustified(Apply(s, Proceed)) <==> !LastSlotGivenBackUnused(s, Proceed)
  {
  }

  /** Disposal is told of the empty slots by every step but one kind. */
  lemma IdleWaitersToldExactly(s: State, step: Step)
    requires Inv(s) && Enabled(s, step) && IdleWaitIsJustified(s)
    ensures IdleWaitIsJustified(Apply(s, step)) <==> !LastSlotGivenBackUnused(s, step)
  {
    assert SlotsAccounted(s);
    hide Inv;
    match step
    case LineWritten(ok) =>
      hide Apply, SlotsAccounted, IdleWaitIsJustified;
      LineTellsIdle(s, ok);
    case Proceed =>
      hide Apply, SlotsAccounted, IdleWaitIsJustified;
      ProceedTellsIdle(s);
    case StreamError => RejectionsOnlyAdd(s);
    case _ =>
  }

  lemma RunNil(s: State)
    ensures Interleaving(s, []) && After(s, []) == s
  {
  }

  lemma RunCons(s: State, step: Step, next: State, rest: seq<Step>, end: State) returns (steps: seq<Step>)
    requires Enabled(s, step) && Apply(s, step) == next && Interleaving(next, rest) && After(next, rest) == end
    ensures steps == [step] + rest && Interleaving(s, steps) && After(s, steps) == end
  {
    steps := [step] + rest;
    assert steps[1..] == rest;
    hide Apply, Enabled;
  }

  /** With one slot: it is taken, disposal begins, and the admitted writer gives it back. */
  function OneSlot(pending: nat, admitted: nat, disposing: bool): State {
    State(1, pending, [], None, 1, disposing, false, false, 0, 0, admitted, if disposing then 1 else 0, [], {}, {})
  }

  lemma OneSlotSteps()
    ensures Opened(1) == OneSlot(0, 0, false)
    ensures Apply(OneSlot(0, 0, false), StartWrite) == OneSlot(1, 1, false)
    ensures Apply(OneSlot(1, 1, false), StartDispose) == OneSlot(1, 1, true)
    ensures Apply(OneSlot(1, 1, true), Proceed) == OneSlot(0, 0, true)
    ensures DisposalStuck(OneSlot(0, 0, true))
  {
  }

  /** The wakeup that is lost: disposal waits for the slots to empty, and the writer that gives back the
      last one because it finds the logger closing does not tell it. */
  lemma DisposeCanWaitForever() returns (steps: seq<Step>)
    ensures Interleaving(Opened(1), steps) && DisposalStuck(After(Opened(1), steps))
  {
    hide Apply, Interleaving, After, DisposalStuck, Opened, Release, TakeNext, RejectQueued, Acquire, WakeIdle;
    OneSlotSteps();
    var stuck := OneSlot(0, 0, true);
    RunNil(stuck);
    steps := RunCons(OneSlot(1, 1, true), Proceed, stuck, [], stuck);
    steps := RunCons(OneSlot(1, 1, false), StartDispose, OneSlot(1, 1, true), steps, stuck);
    steps := RunCons(OneSlot(0, 0, false), StartWrite, OneSlot(1, 1, false), steps, stuck);
  }
}
