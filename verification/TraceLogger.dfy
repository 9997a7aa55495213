/** `JsonlTraceLogger` of electron/logging/logger.ts. Each method is what runs between two awaits; a
    writer that awaits is one of the counted waiters, and the method named after it takes it further. */
module TraceLogger {
  import opened Options
  import opened TraceQueue

  /** A slot is taken if one is free; a writer that finds none sleeps. */
  ghost predicate SlotSought(was: State, now: State) {
    now == if was.pending < was.max then was.(pending := was.pending + 1, admitted := was.admitted + 1)
           else was.(sleeping := was.sleeping + 1)
  }

  /** One slot goes back, and one sleeping writer, if there is one, is woken for it. */
  ghost predicate SlotGivenBack(was: State, now: State) {
    && now.pending == was.pending - 1
    && (was.sleeping > 0 ==> now.sleeping == was.sleeping - 1 && now.woken == was.woken + 1)
    && (was.sleeping == 0 ==> now.sleeping == 0 && now.woken == was.woken)
  }

  /** Every queued write has failed and its slot is free; all writers wake, and whoever waits for the slots to
      empty is told if they have. */
  ghost predicate QueueRejected(was: State, now: State) {
    && now.queue == [] && (forall n :: n in now.rejected <==> n in was.rejected || n in was.queue)
    && now.pending == was.pending - |was.queue|
    && now.sleeping == 0 && now.woken == was.woken + was.sleeping
    && now.idleWaiters == (if now.pending == 0 then 0 else was.idleWaiters)
    && now == was.(queue := now.queue, rejected := now.rejected, pending := now.pending, sleeping := now.sleeping,
                   woken := now.woken, idleWaiters := now.idleWaiters)
  }

  lemma QueueIsRejected(s: State)
    ensures QueueRejected(s, RejectQueued(s))
  {
  }

  /** After the report on a line: its write is resolved, or rejected with all that is queued; a slot is free; the next
      line goes out unless the logger has failed or none is queued, and then idleness is told. */
  ghost predicate LineFinished(was: State, now: State, ok: bool)
    requires was.inFlight.Some?
  {
    && now.resolved == (if ok then was.resolved + {was.inFlight.value} else was.resolved)
    && (forall n :: n in now.rejected <==>
          n in was.rejected || (!ok && (n == was.inFlight.value || n in was.queue)))
    && now.failed == (was.failed || !ok)
    && now.pending == was.pending - 1 - (if ok then 0 else |was.queue|)
    && now.sleeping == (if ok && was.sleeping > 0 then was.sleeping - 1 else 0)
    && now.sleeping + now.woken == was.sleeping + was.woken && now.admitted == was.admitted
    && (if ok && !was.failed && was.queue != []
        then
          && now.inFlight == Some(was.queue[0]) && now.queue == was.queue[1..]
          && now.lines == was.lines + [was.queue[0]] && now.idleWaiters == was.idleWaiters
        else
          && now.inFlight.None? && now.queue == (if ok then was.queue else []) && now.lines == was.lines
          && now.idleWaiters == (if now.pending == 0 then 0 else was.idleWaiters))
    && now.nextSeq == was.nextSeq && now.closing == was.closing && now.closed == was.closed
  }

  lemma WrittenLineIsFinished(s: State)
    requires s.inFlight.Some? && SlotsAccounted(s)
    ensures LineFinished(s, Apply(s, LineWritten(true)), true)
  {
    hide RejectQueued;
  }

  lemma FailedLineIsFinished(s: State)
    requires s.inFlight.Some? && SlotsAccounted(s)
    ensures LineFinished(s, Apply(s, LineWritten(false)), false)
  {
    QueueIsRejected(Failing(s));
    hide RejectQueued, TakeNext;
  }

  /** A writer that has its slot gives it back if the logger has stopped; else its event is queued, and goes out at
      once if no line is out. */
  ghost predicate EventEnqueued(was: State, now: State, queued: bool) {
    && now.admitted == was.admitted - 1 && now.idleWaiters == was.idleWaiters
    && now.resolved == was.resolved && now.rejected == was.rejected
    && (if !queued
        then
          && SlotGivenBack(was, now)
          && now.queue == was.queue && now.inFlight == was.inFlight && now.lines == was.lines
          && now.nextSeq == was.nextSeq
        else
          && now.nextSeq == was.nextSeq + 1 && now.pending == was.pending
          && now.sleeping == was.sleeping && now.woken == was.woken
          && if was.inFlight.Some?
             then now.queue == was.queue + [was.nextSeq] && now.inFlight == was.inFlight && now.lines == was.lines
             else now.queue == [] && now.inFlight == Some(was.nextSeq) && now.lines == was.lines + [was.nextSeq])
  }

  lemma EventIsEnqueued(s: State)
    requires Inv(s) && s.admitted > 0
    ensures EventEnqueued(s, Apply(s, Proceed), !(s.closing || s.closed || s.failed))
  {
    assert s.inFlight.None? ==> s.queue == [];
    hide Inv;
  }

  class JsonlTraceLogger {
    const maxQueueSize: nat
    var pending: int
    var queue: seq<nat>
    var pumping: Option<nat>
    var nextSeq: nat
    var closing: bool
    var closed: bool
    var failure: bool
    var capacityWaiters: nat
    var wokenWriters: nat
    var admittedWriters: nat
    var idleWaiters: nat
    var stream: seq<nat>
    var resolved: set<nat>
    var rejected: set<nat>

    ghost function Model(): State
      reads this
    {
      State(maxQueueSize, pending, queue, pumping, nextSeq, closing, closed, failure, capacityWaiters,
            wokenWriters, admittedWriters, idleWaiters, stream, resolved, rejected)
    }

    ghost predicate Valid()
      reads this
    {
      Inv(Model())
    }

    constructor (maxSize: nat)
      requires maxSize >= 1
      ensures Model() == Opened(maxSize) && Valid()
    {
      maxQueueSize := maxSize;
      pending, queue, pumping, nextSeq := 0, [], None, 1;
      closing, closed, failure := false, false, false;
      capacityWaiters, wokenWriters, admittedWriters, idleWaiters := 0, 0, 0, 0;
      stream, resolved, rejected := [], {}, {};
    }

    /** Gives a slot back and wakes the first writer in line for one. */
    method ReleaseCapacity()
      modifies this
      ensures Model() == Release(old(Model()), 1)
      ensures queue == old(queue) && failure == old(failure) && pumping == old(pumping)
    {
      pending := pending - 1;
      if capacityWaiters > 0 {
        capacityWaiters, wokenWriters := capacityWaiters - 1, wokenWriters + 1;
      }
    }

    /** One look at the slots: take one, or go to sleep until woken. */
    method AcquireCapacity() returns (taken: bool)
      modifies this
      ensures Model() == Acquire(old(Model()))
      ensures taken <==> old(pending) < maxQueueSize
    {
      taken := pending < maxQueueSize;
      if taken {
        pending, admittedWriters := pending + 1, admittedWriters + 1;
      } else {
        capacityWaiters := capacityWaiters + 1;
      }
    }

    method ResolveIdle()
      modifies this`idleWaiters
      ensures Model() == WakeIdle(old(Model()))
    {
      if pending == 0 {
        idleWaiters := 0;
      }
    }

    /** Each queued write fails and its slot goes back. */
    method RejectItems()
      modifies this
      ensures Model() == FirstRejected(old(Model()), |old(queue)|)
    {
      hide Inv, FirstRejected, Release;
      ghost var start := Model();
      var items := queue;
      queue := [];
      NoneRejected(start);
      var i := 0;
      while i < |items|
        invariant 0 <= i <= |items|
        invariant Model() == FirstRejected(start, i)
      {
        rejected := rejected + {items[i]};
        ReleaseCapacity();
        OneMoreRejected(start, i);
        i := i + 1;
      }
    }

    method WakeWriters()
      modifies this
      ensures Model() == old(Model()).(sleeping := 0, woken := old(wokenWriters) + old(capacityWaiters))
    {
      hide Inv;
      ghost var start := Model();
      while capacityWaiters > 0
        invariant Model() == start.(sleeping := capacityWaiters, woken := wokenWriters)
        invariant capacityWaiters + wokenWriters == start.sleeping + start.woken
      {
        capacityWaiters, wokenWriters := capacityWaiters - 1, wokenWriters + 1;
      }
    }

    method RejectQueue()
      modifies this
      ensures Model() == RejectQueued(old(Model()))
      ensures queue == [] && failure == old(failure) && pumping == old(pumping)
      ensures QueueRejected(old(Model()), Model())
    {
      QueueIsRejected(Model());
      hide Inv, QueueRejected, WakeIdle, FirstRejected, RejectQueued;
      ghost var start := Model();
      RejectItems();
      WakeWriters();
      ResolveIdle();
      RejectQueuedInTwo(start);
      RejectQueuedOnlyAdds(start);
    }

    /** A turn of the pump: hand the next line to the stream, or stop and tell who waits for idleness. */
    method PumpNext()
      modifies this
      ensures Model() == (if old(Model()).queue == [] then WakeIdle(old(Model()).(inFlight := None))
          else TakeNext(old(Model())))
    {
      if queue == [] {
        pumping := None;
        ResolveIdle();
      } else {
        pumping, queue, stream := Some(queue[0]), queue[1..], stream + [queue[0]];
      }
    }

    /** `write` up to its wait for a slot. */
    method BeginWrite() returns (accepted: bool)
      requires Valid()
      modifies this
      ensures accepted <==> !closing && !closed && !failure
      ensures if accepted then SlotSought(old(Model()), Model()) else Model() == old(Model())
      ensures Model() == Apply(old(Model()), StartWrite) && Valid()
    {
      hide Inv;
      StepKeepsInv(Model(), StartWrite);
      accepted := !closing && !closed && !failure;
      if accepted {
        var _ := AcquireCapacity();
      }
    }

    /** A woken writer looks again, since another writer may have taken the slot first. */
    method ResumeWriter() returns (taken: bool)
      requires Valid() && wokenWriters > 0
      modifies this
      ensures Model() == Apply(old(Model()), Resume) && Valid()
      ensures taken <==> old(pending) < maxQueueSize
      ensures SlotSought(old(Model()).(woken := old(wokenWriters) - 1), Model())
    {
      hide Inv;
      StepKeepsInv(Model(), Resume);
      wokenWriters := wokenWriters - 1;
      taken := AcquireCapacity();
    }

    /** `write` after it got its slot: give it back if the logger stopped meanwhile, else queue the event. */
    method EnqueueAdmitted() returns (queued: bool)
      requires Valid() && admittedWriters > 0
      modifies this
      ensures queued <==> !closing && !closed && !failure
      ensures EventEnqueued(old(Model()), Model(), queued)
      ensures Model() == Apply(old(Model()), Proceed) && Valid()
    {
      EventIsEnqueued(Model());
      hide EventEnqueued;
      hide Inv;
      StepKeepsInv(Model(), Proceed);
      admittedWriters := admittedWriters - 1;
      queued := !closing && !closed && !failure;
      if !queued {
        ReleaseCapacity();
      } else {
        queue, nextSeq := queue + [nextSeq], nextSeq + 1;
        if pumping.None? {
          PumpNext();
        }
      }
    }

    method SettleItem(ok: bool)
      requires pumping.Some?
      modifies this
      ensures Model() == SettleLine(old(Model()), ok)
      ensures pumping == None
    {
      hide Inv, RejectQueued;
      var item := pumping.value;
      pumping := None;
      if ok {
        resolved := resolved + {item};
      } else {
        failure, rejected := true, rejected + {item};
        RejectQueue();
      }
    }

    /** The stream reports on the line in flight; the pump goes on unless the logger failed. */
    method FinishLine(ok: bool)
      requires Valid() && pumping.Some?
      modifies this
      ensures LineFinished(old(Model()), Model(), ok)
      ensures Model() == Apply(old(Model()), LineWritten(ok)) && Valid()
    {
      assert SlotsAccounted(Model());
      if ok {
        WrittenLineIsFinished(Model());
      } else {
        FailedLineIsFinished(Model());
      }
      hide LineFinished;
      hide Inv, SettleLine, Release, WakeIdle, TakeNext;
      StepKeepsInv(Model(), LineWritten(ok));
      SettleItem(ok);
      ReleaseCapacity();
      if failure {
        ResolveIdle();
      } else {
        PumpNext();
      }
    }

    method OnStreamError()
      requires Valid()
      modifies this
      ensures QueueRejected(old(Model()).(failed := true), Model())
      ensures Model() == Apply(old(Model()), StreamError) && Valid()
    {
      QueueIsRejected(Model().(failed := true));
      hide Inv;
      StepKeepsInv(Model(), StreamError);
      failure := true;
      RejectQueue();
    }

    /** The first call closes the logger to writers and waits while slots are taken. */
    method Dispose() returns (waits: bool)
      requires Valid()
      modifies this
      ensures closing && (old(closing) ==> Model() == old(Model()))
      ensures !old(closing) ==>
        Model() == old(Model()).(closing := true, idleWaiters := if old(pending) > 0 then 1 else 0)
      ensures Model() == Apply(old(Model()), StartDispose) && Valid()
      ensures waits <==> idleWaiters > 0
    {
      hide Inv;
      StepKeepsInv(Model(), StartDispose);
      if !closing {
        closing := true;
        idleWaiters := if pending > 0 then 1 else 0;
      }
      waits := idleWaiters > 0;
    }

    method EndStream()
      requires Valid() && closing && idleWaiters == 0
      modifies this
      ensures Model() == old(Model()).(closed := true)
      ensures Model() == Apply(old(Model()), StreamEnded) && Valid()
    {
      hide Inv;
      StepKeepsInv(Model(), StreamEnded);
      closed := true;
    }
  }

  ghost function FirstOf(items: seq<nat>, n: nat): set<nat>
    requires n <= |items|
  {
    set k | 0 <= k < n :: items[k]
  }

  /** The first n queued writes have failed and their slots are free. */
  ghost function FirstRejected(s: State, n: nat): State
    requires n <= |s.queue|
  {
    Release(s.(queue := [], rejected := s.rejected + FirstOf(s.queue, n)), n)
  }

  lemma NoneRejected(s: State)
    ensures FirstRejected(s, 0) == s.(queue := [])
  {
    assert FirstOf(s.queue, 0) == {};
  }

  lemma OneMoreRejected(s: State, n: nat)
    requires n < |s.queue|
    ensures var t := FirstRejected(s, n);
            FirstRejected(s, n + 1) == Release(t.(rejected := t.rejected + {s.queue[n]}), 1)
  {
    FirstOfNext(s.queue, n);
    hide FirstOf;
  }

  lemma RejectQueuedInTwo(s: State)
    ensures var freed := FirstRejected(s, |s.queue|);
            RejectQueued(s) == WakeIdle(freed.(sleeping := 0, woken := freed.woken + freed.sleeping))
  {
  }

  lemma FirstOfNext(items: seq<nat>, n: nat)
    requires n < |items|
    ensures FirstOf(items, n + 1) == FirstOf(items, n) + {items[n]}
  {
  }
}
