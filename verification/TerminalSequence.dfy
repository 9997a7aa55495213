/** src/terminal-sequence.ts: which terminal events the panel renders, and what it has rendered then.
    A terminal produces the events 1, 2, 3 and so on; delivery may lose, repeat and reorder them, and a
    snapshot may have lost the beginning of the output to the bounded scrollback. */
module TerminalSequence {

  type TerminalId = nat

  datatype Event = Event(terminal: TerminalId, seqNo: nat, chunk: string)

  datatype Decision = Apply | Ignore | Recover | Queue

  datatype Tracker = Tracker(
    last: map<TerminalId, nat>,
    recovering: set<TerminalId>,
    queued: map<TerminalId, seq<Event>>)

  const QUEUE_LIMIT: nat := 256

  function Last(t: Tracker, id: TerminalId): nat {
    if id in t.last then t.last[id] else 0
  }

  function Queued(t: Tracker, id: TerminalId): seq<Event> {
    if id in t.queued then t.queued[id] else []
  }

  function Newest(events: seq<Event>): (kept: seq<Event>)
    ensures |kept| <= QUEUE_LIMIT && forall e :: e in kept ==> e in events
  {
    if |events| <= QUEUE_LIMIT then events else events[|events| - QUEUE_LIMIT..]
  }

  function Defer(t: Tracker, e: Event): Tracker {
    t.(queued := t.queued[e.terminal := Newest(Queued(t, e.terminal) + [e])])
  }

  function StartRecovery(t: Tracker, id: TerminalId): Tracker {
    t.(recovering := t.recovering + {id})
  }

  function Decide(t: Tracker, e: Event): Decision {
    var previous := Last(t, e.terminal);
    if e.terminal in t.recovering then Queue
    else if e.seqNo <= previous then Ignore
    else if previous > 0 && e.seqNo != previous + 1 then Recover
    else Apply
  }

  function Observe(t: Tracker, e: Event): Tracker {
    match Decide(t, e)
    case Queue => Defer(t, e)
    case Ignore => t
    case Recover => Defer(StartRecovery(t, e.terminal), e)
    case Apply => t.(last := t.last[e.terminal := e.seqNo])
  }

  function Newer(events: seq<Event>, seqNo: nat): (kept: seq<Event>)
    ensures forall e :: e in kept <==> e in events && e.seqNo > seqNo
    ensures |kept| <= |events|
  {
    if events == [] then []
    else if events[0].seqNo > seqNo then [events[0]] + Newer(events[1..], seqNo)
    else Newer(events[1..], seqNo)
  }

  predicate Ascending(events: seq<Event>) {
    forall i, j :: 0 <= i < j < |events| ==> events[i].seqNo <= events[j].seqNo
  }

  /** Puts an event in front of the later ones, behind its equals. */
  function Insert(e: Event, events: seq<Event>): (r: seq<Event>)
    ensures forall x :: x in r <==> x == e || x in events
  {
    if events == [] || e.seqNo <= events[0].seqNo then [e] + events
    else [events[0]] + Insert(e, events[1..])
  }

  function SortBySeq(events: seq<Event>): (r: seq<Event>)
    ensures forall x :: x in r <==> x in events
  {
    if events == [] then [] else Insert(events[0], SortBySeq(events[1..]))
  }

  lemma {:induction false} InsertKeepsOrder(e: Event, events: seq<Event>)
    requires Ascending(events)
    ensures Ascending(Insert(e, events))
  {
    if events != [] && e.seqNo > events[0].seqNo {
      var rest := Insert(e, events[1..]);
      InsertKeepsOrder(e, events[1..]);
      forall k | 0 <= k < |rest| ensures events[0].seqNo <= rest[k].seqNo {
        assert rest[k] in rest;
      }
    }
  }

  lemma {:induction false} InsertAddsOne(e: Event, events: seq<Event>)
    ensures multiset(Insert(e, events)) == multiset(events) + multiset{e}
  {
    if events != [] {
      assert events == [events[0]] + events[1..];
      InsertAddsOne(e, events[1..]);
    }
  }

  /** The replay is the queue's newer events, each as often as queued, in ascending order. */
  lemma {:induction false} SortIsOrderedPermutation(events: seq<Event>)
    ensures Ascending(SortBySeq(events)) && multiset(SortBySeq(events)) == multiset(events)
  {
    if events != [] {
      SortIsOrderedPermutation(events[1..]);
      InsertKeepsOrder(events[0], SortBySeq(events[1..]));
      InsertAddsOne(events[0], SortBySeq(events[1..]));
      assert events == [events[0]] + events[1..];
    }
  }

  function Replay(t: Tracker, id: TerminalId, snapshot: nat): seq<Event> {
    SortBySeq(Newer(Queued(t, id), snapshot))
  }

  function CompleteRecovery(t: Tracker, id: TerminalId, snapshot: nat): Tracker {
    Tracker(t.last[id := snapshot], t.recovering - {id}, t.queued - {id})
  }

  function CancelRecovery(t: Tracker, id: TerminalId): Tracker {
    t.(recovering := t.recovering - {id}, queued := t.queued - {id})
  }

  const UNTRACKED := Tracker(map[], {}, map[])

  lemma ReplayMembers(t: Tracker, id: TerminalId, snapshot: nat)
    ensures Ascending(Replay(t, id, snapshot))
    ensures forall e :: e in Replay(t, id, snapshot) <==> e in Queued(t, id) && e.seqNo > snapshot
  {
    SortIsOrderedPermutation(Newer(Queued(t, id), snapshot));
  }

  /** All output of some events, one after the other. */
  function Flat(chunks: seq<string>): string {
    if chunks == [] then "" else chunks[0] + Flat(chunks[1..])
  }

  /** The chunks without the first `dropped` characters of their output. */
  function Tail(chunks: seq<string>, dropped: nat): seq<string> {
    if dropped == 0 || chunks == [] then chunks
    else if dropped < |chunks[0]| then [chunks[0][dropped..]] + chunks[1..]
    else Tail(chunks[1..], dropped - |chunks[0]|)
  }

  lemma {:induction false} FlatSnoc(chunks: seq<string>, chunk: string)
    ensures Flat(chunks + [chunk]) == Flat(chunks) + chunk
  {
    if chunks == [] {
      assert [chunk][1..] == [];
    } else {
      assert (chunks + [chunk])[1..] == chunks[1..] + [chunk];
      FlatSnoc(chunks[1..], chunk);
    }
  }

  /** The output of a tail is the output without its first characters. */
  lemma {:induction false} TailIsSuffix(chunks: seq<string>, dropped: nat)
    requires dropped <= |Flat(chunks)|
    ensures Flat(Tail(chunks, dropped)) == Flat(chunks)[dropped..]
  {
    if dropped > 0 && chunks != [] {
      if dropped < |chunks[0]| {
        assert ([chunks[0][dropped..]] + chunks[1..])[1..] == chunks[1..];
      } else {
        TailIsSuffix(chunks[1..], dropped - |chunks[0]|);
      }
    }
  }

  /** A later event goes to the end of the tail, whatever was dropped before. */
  lemma {:induction false} TailSnoc(chunks: seq<string>, chunk: string, dropped: nat)
    requires dropped <= |Flat(chunks)|
    ensures Tail(chunks + [chunk], dropped) == Tail(chunks, dropped) + [chunk]
  {
    if dropped > 0 && chunks != [] {
      assert (chunks + [chunk])[1..] == chunks[1..] + [chunk];
      if dropped >= |chunks[0]| {
        TailSnoc(chunks[1..], chunk, dropped - |chunks[0]|);
      }
    }
  }

  /** The panel: the tracker; for each terminal the chunks written to its view; and how many characters of the
      terminal's output lie before the first of them. */
  datatype Panel = Panel(tracker: Tracker, screens: map<TerminalId, seq<string>>, missing: map<TerminalId, nat>)

  const FRESH_PANEL := Panel(UNTRACKED, map[], map[])

  function Screen(p: Panel, id: TerminalId): seq<string> {
    if id in p.screens then p.screens[id] else []
  }

  function Missing(p: Panel, id: TerminalId): nat {
    if id in p.missing then p.missing[id] else 0
  }

  function Deliver(p: Panel, e: Event): Panel {
    var observed := p.(tracker := Observe(p.tracker, e));
    if Decide(p.tracker, e).Apply? then
      observed.(screens := p.screens[e.terminal := Screen(p, e.terminal) + [e.chunk]])
    else observed
  }

  function DeliverAll(p: Panel, events: seq<Event>): Panel
    decreases |events|
  {
    if events == [] then p else DeliverAll(Deliver(p, events[0]), events[1..])
  }

  /** A view that has just been given the retained part of a snapshot, its queue handed out for replay. */
  function Restored(p: Panel, id: TerminalId, n: nat, retained: seq<string>, dropped: nat): Panel {
    Panel(CompleteRecovery(p.tracker, id, n), p.screens[id := retained], p.missing[id := dropped])
  }

  /** The view shows the snapshot, then the queued events are observed again. */
  function Restore(p: Panel, id: TerminalId, n: nat, retained: seq<string>, dropped: nat): Panel {
    DeliverAll(Restored(p, id, n, retained, dropped), Replay(p.tracker, id, n))
  }

  datatype Step =
    | Arrive(event: Event)
    | Hold(event: Event)
    | Start(id: TerminalId)
    | Snapshot(id: TerminalId, seqNo: nat, dropped: nat)
    | Cancel(id: TerminalId)
    | Reset

  /** What every terminal has produced over the whole run, by terminal. */
  type Log = TerminalId -> seq<string>

  predicate Genuine(e: Event, log: Log) {
    1 <= e.seqNo <= |log(e.terminal)| && e.chunk == log(e.terminal)[e.seqNo - 1]
  }

  predicate Possible(step: Step, log: Log) {
    match step
    case Arrive(e) => Genuine(e, log)
    case Hold(e) => Genuine(e, log)
    case Snapshot(id, n, dropped) => n <= |log(id)| && dropped <= |Flat(log(id)[..n])|
    case _ => true
  }

  function Next(p: Panel, step: Step, log: Log): Panel
    requires Possible(step, log)
  {
    match step
    case Arrive(e) => Deliver(p, e)
    case Hold(e) => p.(tracker := Defer(p.tracker, e))
    case Start(id) => p.(tracker := StartRecovery(p.tracker, id))
    case Snapshot(id, n, dropped) => Restore(p, id, n, Tail(log(id)[..n], dropped), dropped)
    case Cancel(id) => p.(tracker := CancelRecovery(p.tracker, id))
    case Reset => FRESH_PANEL
  }

  /** The first event seen of a terminal is one that came after others, which nobody will fetch. */
  predicate LateStart(t: Tracker, e: Event) {
    e.terminal !in t.recovering && Last(t, e.terminal) == 0 && e.seqNo > 1
  }

  predicate StartsLate(p: Panel, step: Step) {
    match step
    case Arrive(e) => LateStart(p.tracker, e)
    case Snapshot(id, n, _) => n == 0 && Replay(p.tracker, id, 0) != [] && Replay(p.tracker, id, 0)[0].seqNo > 1
    case _ => false
  }

  /** A terminal's view shows its events 1 to `last`, without the characters known to be missing. */
  ghost predicate Faithful(p: Panel, log: Log, id: TerminalId) {
    && Last(p.tracker, id) <= |log(id)|
    && Missing(p, id) <= |Flat(log(id)[..Last(p.tracker, id)])|
    && Screen(p, id) == Tail(log(id)[..Last(p.tracker, id)], Missing(p, id))
  }

  ghost predicate AllFaithful(p: Panel, log: Log) {
    forall id :: Faithful(p, log, id)
  }

  /** Queued events are genuine, filed under their terminal, and few. */
  ghost predicate QueuesGenuine(p: Panel, log: Log) {
    forall id :: QueueGenuine(Queued(p.tracker, id), log, id)
  }

  ghost predicate QueueGenuine(events: seq<Event>, log: Log, id: TerminalId) {
    |events| <= QUEUE_LIMIT && forall e :: e in events ==> e.terminal == id && Genuine(e, log)
  }

  lemma DeferKeepsQueues(p: Panel, e: Event, log: Log)
    requires QueuesGenuine(p, log) && Genuine(e, log)
    ensures QueuesGenuine(p.(tracker := Defer(p.tracker, e)), log)
  {
    var after := p.(tracker := Defer(p.tracker, e));
    hide Genuine, Newest;
    forall id ensures QueueGenuine(Queued(after.tracker, id), log, id) {
      assert QueueGenuine(Queued(p.tracker, id), log, id);
    }
  }

  lemma AppliedIsFaithful(p: Panel, e: Event, log: Log)
    requires Faithful(p, log, e.terminal) && Genuine(e, log)
    requires Decide(p.tracker, e).Apply? && e.seqNo == Last(p.tracker, e.terminal) + 1
    ensures Faithful(Deliver(p, e), log, e.terminal)
  {
    var before := log(e.terminal)[..e.seqNo - 1];
    assert log(e.terminal)[..e.seqNo] == before + [e.chunk];
    FlatSnoc(before, e.chunk);
    TailSnoc(before, e.chunk, Missing(p, e.terminal));
  }

  lemma LateStartIsShort(p: Panel, e: Event, log: Log)
    requires Faithful(p, log, e.terminal) && Genuine(e, log) && LateStart(p.tracker, e)
    ensures Short(Deliver(p, e), e.terminal) && Missing(Deliver(p, e), e.terminal) == 0
    ensures !Faithful(Deliver(p, e), log, e.terminal)
  {
    assert log(e.terminal)[..0] == [];
  }

  /** One delivered event leaves the views faithful exactly when it is not a late start. */
  lemma DeliverIsFaithfulExactly(p: Panel, e: Event, log: Log)
    requires AllFaithful(p, log) && Genuine(e, log)
    ensures AllFaithful(Deliver(p, e), log) <==> !LateStart(p.tracker, e)
  {
    var after := Deliver(p, e);
    assert Faithful(p, log, e.terminal);
    if LateStart(p.tracker, e) {
      LateStartIsShort(p, e, log);
    } else {
      if Decide(p.tracker, e).Apply? {
        AppliedIsFaithful(p, e, log);
      }
      hide Tail, Flat, Genuine;
      forall id ensures Faithful(after, log, id) {
        assert Faithful(p, log, id);
      }
    }
  }

  lemma DeliverKeepsQueues(p: Panel, e: Event, log: Log)
    requires QueuesGenuine(p, log) && Genuine(e, log)
    ensures QueuesGenuine(Deliver(p, e), log)
  {
    var after := Deliver(p, e);
    match Decide(p.tracker, e)
    case Queue => DeferKeepsQueues(p, e, log);
    case Recover =>
      var recovering := p.(tracker := StartRecovery(p.tracker, e.terminal));
      forall id ensures QueueGenuine(Queued(recovering.tracker, id), log, id) {
        assert QueueGenuine(Queued(p.tracker, id), log, id);
      }
      DeferKeepsQueues(recovering, e, log);
    case _ =>
      forall id ensures QueueGenuine(Queued(after.tracker, id), log, id) {
        assert QueueGenuine(Queued(p.tracker, id), log, id);
      }
  }

  /** Events of one terminal, each genuine, none starting it late: the views stay faithful. */
  lemma {:induction false} ReplayKeepsFaithful(p: Panel, events: seq<Event>, log: Log, id: TerminalId)
    requires AllFaithful(p, log) && QueuesGenuine(p, log)
    requires forall e :: e in events ==> e.terminal == id && Genuine(e, log)
    requires Last(p.tracker, id) > 0 || id in p.tracker.recovering || events == [] || events[0].seqNo <= 1
    ensures AllFaithful(DeliverAll(p, events), log) && QueuesGenuine(DeliverAll(p, events), log)
    decreases |events|
  {
    if events != [] {
      var e := events[0];
      assert e in events;
      DeliverIsFaithfulExactly(p, e, log);
      DeliverKeepsQueues(p, e, log);
      var next := Deliver(p, e);
      assert Last(next.tracker, id) > 0 || id in next.tracker.recovering;
      hide AllFaithful, QueuesGenuine, Genuine;
      ReplayKeepsFaithful(next, events[1..], log, id);
    }
  }

  /** A view that shows less than its number promises. */
  predicate Short(p: Panel, id: TerminalId) {
    |Screen(p, id)| < Last(p.tracker, id)
  }

  /** Once short, a view stays short however many events follow, and nothing is recorded as missing. */
  lemma {:induction false} ShortStaysShort(p: Panel, events: seq<Event>, id: TerminalId)
    requires Short(p, id)
    ensures Short(DeliverAll(p, events), id) && Missing(DeliverAll(p, events), id) == Missing(p, id)
    decreases |events|
  {
    if events != [] {
      ShortStaysShort(Deliver(p, events[0]), events[1..], id);
    }
  }

  lemma SnapshotIsFaithful(p: Panel, id: TerminalId, n: nat, dropped: nat, log: Log)
    requires AllFaithful(p, log) && QueuesGenuine(p, log) && Possible(Snapshot(id, n, dropped), log)
    ensures AllFaithful(Restored(p, id, n, Tail(log(id)[..n], dropped), dropped), log)
    ensures QueuesGenuine(Restored(p, id, n, Tail(log(id)[..n], dropped), dropped), log)
  {
    var restored := Restored(p, id, n, Tail(log(id)[..n], dropped), dropped);
    hide Genuine, Tail, Flat;
    forall other ensures Faithful(restored, log, other) {
      assert Faithful(p, log, other);
    }
    forall other ensures QueueGenuine(Queued(restored.tracker, other), log, other) {
      assert QueueGenuine(Queued(p.tracker, other), log, other);
    }
  }

  lemma ReplayIsGenuine(p: Panel, id: TerminalId, n: nat, log: Log)
    requires QueuesGenuine(p, log)
    ensures forall e :: e in Replay(p.tracker, id, n) ==> e.terminal == id && Genuine(e, log) && e.seqNo > n
  {
    hide Genuine, Replay;
    ReplayMembers(p.tracker, id, n);
    assert QueueGenuine(Queued(p.tracker, id), log, id);
  }

  /** Restoring from a snapshot, whatever the scrollback had dropped of it and whatever the queue kept, is
      faithful exactly when the snapshot has a number or the replay does not start late. */
  lemma RestoreIsFaithfulExactly(p: Panel, id: TerminalId, n: nat, dropped: nat, log: Log)
    requires AllFaithful(p, log) && QueuesGenuine(p, log) && Possible(Snapshot(id, n, dropped), log)
    ensures AllFaithful(Next(p, Snapshot(id, n, dropped), log), log) <==> !StartsLate(p, Snapshot(id, n, dropped))
    ensures !StartsLate(p, Snapshot(id, n, dropped)) ==> QueuesGenuine(Next(p, Snapshot(id, n, dropped), log), log)
  {
    var retained := Tail(log(id)[..n], dropped);
    var restored := Restored(p, id, n, retained, dropped);
    var replay := Replay(p.tracker, id, n);
    SnapshotIsFaithful(p, id, n, dropped, log);
    ReplayIsGenuine(p, id, n, log);
    assert Next(p, Snapshot(id, n, dropped), log) == DeliverAll(restored, replay);
    assert replay != [] ==> replay[0] in replay;
    assert n == 0 ==> dropped == 0 && retained == [];
    hide QueuesGenuine, Genuine, Replay, Tail, Flat;
    if StartsLate(p, Snapshot(id, n, dropped)) {
      LateReplayIsShort(restored, replay, id);
      ShortIsNotFaithful(DeliverAll(restored, replay), log, id);
    } else {
      hide AllFaithful;
      ReplayKeepsFaithful(restored, replay, log, id);
    }
  }

  lemma ShortIsNotFaithful(p: Panel, log: Log, id: TerminalId)
    requires Short(p, id) && Missing(p, id) == 0
    ensures !Faithful(p, log, id)
  {
  }

  lemma LateReplayIsShort(p: Panel, events: seq<Event>, id: TerminalId)
    requires events != [] && events[0].terminal == id && events[0].seqNo > 1
    requires Last(p.tracker, id) == 0 && id !in p.tracker.recovering && Screen(p, id) == []
    ensures Short(DeliverAll(p, events), id) && Missing(DeliverAll(p, events), id) == Missing(p, id)
  {
    ShortStaysShort(Deliver(p, events[0]), events[1..], id);
  }

  /** One step of the panel keeps every view faithful exactly when it does not start a terminal late. */
  lemma StepIsFaithfulExactly(p: Panel, step: Step, log: Log)
    requires AllFaithful(p, log) && QueuesGenuine(p, log) && Possible(step, log)
    ensures AllFaithful(Next(p, step, log), log) <==> !StartsLate(p, step)
    ensures !StartsLate(p, step) ==> QueuesGenuine(Next(p, step, log), log)
  {
    match step
    case Arrive(e) =>
      DeliverIsFaithfulExactly(p, e, log);
      DeliverKeepsQueues(p, e, log);
    case Snapshot(id, n, dropped) => RestoreIsFaithfulExactly(p, id, n, dropped, log);
    case Hold(e) =>
      DeferKeepsQueues(p, e, log);
      SameViewsStayFaithful(p, Next(p, step, log), log);
    case _ =>
      var after := Next(p, step, log);
      forall id ensures Faithful(after, log, id) {
        assert Faithful(p, log, id);
      }
      forall id ensures QueueGenuine(Queued(after.tracker, id), log, id) {
        assert QueueGenuine(Queued(p.tracker, id), log, id);
      }
  }

  lemma SameViewsStayFaithful(p: Panel, q: Panel, log: Log)
    requires AllFaithful(p, log) && p.screens == q.screens && p.missing == q.missing && p.tracker.last == q.tracker.last
    ensures AllFaithful(q, log)
  {
    forall id ensures Faithful(q, log, id) {
      assert Faithful(p, log, id);
    }
  }

  /** A run in which no step starts a terminal late. */
  ghost predicate TimelyRun(p: Panel, steps: seq<Step>, log: Log)
    decreases |steps|
  {
    steps == [] ||
    (Possible(steps[0], log) && !StartsLate(p, steps[0]) && TimelyRun(Next(p, steps[0], log), steps[1..], log))
  }

  ghost function AfterRun(p: Panel, steps: seq<Step>, log: Log): Panel
    requires TimelyRun(p, steps, log)
    decreases |steps|
  {
    if steps == [] then p else AfterRun(Next(p, steps[0], log), steps[1..], log)
  }

  lemma {:induction false} RunsStayFaithful(p: Panel, steps: seq<Step>, log: Log)
    requires AllFaithful(p, log) && QueuesGenuine(p, log) && TimelyRun(p, steps, log)
    ensures AllFaithful(AfterRun(p, steps, log), log) && QueuesGenuine(AfterRun(p, steps, log), log)
    decreases |steps|
  {
    if steps != [] {
      StepIsFaithfulExactly(p, steps[0], log);
      hide AllFaithful, QueuesGenuine, Next, Possible, StartsLate;
      RunsStayFaithful(Next(p, steps[0], log), steps[1..], log);
    }
  }

  /** Under lost, repeated and reordered events, recoveries that start, fail, overlap and complete, queues that
      dropped events and snapshots cut by the scrollback: every view shows exactly the events 1 to `last`, with
      no hole behind the characters missing at its beginning. */
  lemma NoHoleInAnyRun(steps: seq<Step>, log: Log, id: TerminalId)
    requires TimelyRun(FRESH_PANEL, steps, log)
    ensures var p := AfterRun(FRESH_PANEL, steps, log);
            && Last(p.tracker, id) <= |log(id)|
            && Screen(p, id) == Tail(log(id)[..Last(p.tracker, id)], Missing(p, id))
            && Missing(p, id) <= |Flat(log(id)[..Last(p.tracker, id)])|
            && Flat(Screen(p, id)) == Flat(log(id)[..Last(p.tracker, id)])[Missing(p, id)..]
            && |Queued(p.tracker, id)| <= QUEUE_LIMIT
  {
    assert AllFaithful(FRESH_PANEL, log) && QueuesGenuine(FRESH_PANEL, log) by {
      forall other ensures Faithful(FRESH_PANEL, log, other) {
        assert log(other)[..0] == [];
      }
    }
    RunsStayFaithful(FRESH_PANEL, steps, log);
    var p := AfterRun(FRESH_PANEL, steps, log);
    assert Faithful(p, log, id) && QueueGenuine(Queued(p.tracker, id), log, id);
    TailIsSuffix(log(id)[..Last(p.tracker, id)], Missing(p, id));
  }

  /** What is missing now, given what was missing: a snapshot says how much was dropped, a reset starts over. */
  function MissingAfter(missing: nat, step: Step, id: TerminalId): nat {
    match step
    case Snapshot(k, _, dropped) => if k == id then dropped else missing
    case Reset => 0
    case _ => missing
  }

  function MissingAfterAll(missing: nat, steps: seq<Step>, id: TerminalId): nat
    decreases |steps|
  {
    if steps == [] then missing else MissingAfterAll(MissingAfter(missing, steps[0], id), steps[1..], id)
  }

  lemma {:induction false} DeliveryMissesNothing(p: Panel, events: seq<Event>)
    ensures DeliverAll(p, events).missing == p.missing
    decreases |events|
  {
    if events != [] {
      DeliveryMissesNothing(Deliver(p, events[0]), events[1..]);
    }
  }

  /** Only a snapshot makes a view begin later: its beginning is missing exactly as the last one restored had
      dropped it, and a terminal whose snapshots were whole shows all its output. */
  lemma {:induction false} MissingIsWhatWasDropped(p: Panel, steps: seq<Step>, log: Log, id: TerminalId)
    requires TimelyRun(p, steps, log)
    ensures Missing(AfterRun(p, steps, log), id) == MissingAfterAll(Missing(p, id), steps, id)
    decreases |steps|
  {
    if steps != [] {
      var next := Next(p, steps[0], log);
      if steps[0].Snapshot? {
        var id0, n, dropped := steps[0].id, steps[0].seqNo, steps[0].dropped;
        DeliveryMissesNothing(Restored(p, id0, n, Tail(log(id0)[..n], dropped), dropped), Replay(p.tracker, id0, n));
      }
      assert Missing(next, id) == MissingAfter(Missing(p, id), steps[0], id);
      hide Next, Possible, StartsLate, Missing, MissingAfter;
      MissingIsWhatWasDropped(next, steps[1..], log, id);
    }
  }

  /** A run that starts a terminal late: the first event its view sees has number 2, and is taken. */
  lemma LateStartHappens(id: TerminalId)
    ensures var log: Log := (_: TerminalId) => ["a", "b"];
            && Possible(Arrive(Event(id, 2, "b")), log) && StartsLate(FRESH_PANEL, Arrive(Event(id, 2, "b")))
            && AllFaithful(FRESH_PANEL, log)
            && Screen(Next(FRESH_PANEL, Arrive(Event(id, 2, "b")), log), id) == ["b"]
            && !AllFaithful(Next(FRESH_PANEL, Arrive(Event(id, 2, "b")), log), log)
  {
    var log: Log := (_: TerminalId) => ["a", "b"];
    var e := Event(id, 2, "b");
    forall other ensures Faithful(FRESH_PANEL, log, other) {
      assert log(other)[..0] == [];
    }
    DeliverIsFaithfulExactly(FRESH_PANEL, e, log);
  }

  /** Every number from `from` + 1 to `to` is among the events. */
  ghost predicate Covers(events: seq<Event>, from: nat, to: nat) {
    forall n: nat :: from < n <= to ==> Holds(events, n)
  }

  ghost predicate Holds(events: seq<Event>, n: nat) {
    exists e :: e in events && e.seqNo == n
  }

  /** Among ascending events that cover what follows, the first leaves no gap. */
  lemma FirstIsNext(events: seq<Event>, from: nat, to: nat)
    requires events != [] && Ascending(events) && Covers(events, from, to) && events[0].seqNo <= to
    ensures events[0].seqNo <= from + 1
  {
    if from < to {
      assert Holds(events, from + 1);
    }
  }

  lemma RestCovers(events: seq<Event>, from: nat, next: nat, to: nat)
    requires events != [] && Covers(events, from, to) && from <= next && events[0].seqNo <= next
    ensures Covers(events[1..], next, to)
  {
    forall n: nat | next < n <= to ensures Holds(events[1..], n) {
      assert Holds(events, n);
      var e :| e in events && e.seqNo == n;
      assert events == [events[0]] + events[1..];
      assert e in events[1..];
    }
  }

  /** Ascending events without a gap are all rendered: nothing is asked for again. */
  lemma {:induction false} GaplessReplayCatchesUp(p: Panel, events: seq<Event>, id: TerminalId, to: nat)
    requires Ascending(events) && id !in p.tracker.recovering && Last(p.tracker, id) <= to
    requires forall e :: e in events ==> e.terminal == id && e.seqNo <= to
    requires Covers(events, Last(p.tracker, id), to)
    ensures id !in DeliverAll(p, events).tracker.recovering && Last(DeliverAll(p, events).tracker, id) == to
    decreases |events|
  {
    var last := Last(p.tracker, id);
    if events == [] {
      assert last < to ==> Holds(events, last + 1);
    } else {
      var e := events[0];
      assert e in events;
      FirstIsNext(events, last, to);
      var next := Deliver(p, e);
      assert id !in next.tracker.recovering && last <= Last(next.tracker, id) <= to;
      assert e.seqNo <= Last(next.tracker, id);
      RestCovers(events, last, Last(next.tracker, id), to);
      hide Deliver, Last, Covers;
      GaplessReplayCatchesUp(next, events[1..], id, to);
    }
  }

  /** Recovery ends what it began: if the queue kept every event after the snapshot, in whatever order and
      however often, the view ends at the newest of them and no new recovery starts. */
  lemma RecoveryCatchesUp(p: Panel, id: TerminalId, n: nat, retained: seq<string>, dropped: nat, to: nat)
    requires n <= to && Covers(Queued(p.tracker, id), n, to)
    requires forall e :: e in Queued(p.tracker, id) ==> e.terminal == id && e.seqNo <= to
    ensures id !in Restore(p, id, n, retained, dropped).tracker.recovering
    ensures Last(Restore(p, id, n, retained, dropped).tracker, id) == to
  {
    var replay := Replay(p.tracker, id, n);
    ReplayMembers(p.tracker, id, n);
    forall k: nat | n < k <= to ensures Holds(replay, k) {
      assert Holds(Queued(p.tracker, id), k);
      var f :| f in Queued(p.tracker, id) && f.seqNo == k;
      assert f in replay;
    }
    GaplessReplayCatchesUp(Restored(p, id, n, retained, dropped), replay, id, to);
  }

  /** The event stands last among those held back for its terminal, of which the newest 256 are kept; nothing else of
      the queues has changed. */
  ghost predicate HeldBack(was: map<TerminalId, seq<Event>>, now: map<TerminalId, seq<Event>>, e: Event) {
    && e.terminal in now && NewestOf((if e.terminal in was then was[e.terminal] else []) + [e], now[e.terminal])
    && forall id :: id != e.terminal ==> (id in now <==> id in was) && (id in was ==> now[id] == was[id])
  }

  ghost predicate NewestOf(all: seq<Event>, kept: seq<Event>) {
    |kept| == (if |all| < 256 then |all| else 256) && kept == all[|all| - |kept|..]
  }

  /** What becomes of an event: held back while its terminal recovers, ignored if old, the reason for a recovery if
      there is a gap before it, and rendered otherwise. */
  ghost predicate Classified(was: Tracker, now: Tracker, e: Event, decision: Decision) {
    var previous := if e.terminal in was.last then was.last[e.terminal] else 0;
    match decision
    case Queue =>
      e.terminal in was.recovering && now == was.(queued := now.queued) && HeldBack(was.queued, now.queued, e)
    case Ignore => e.terminal !in was.recovering && e.seqNo <= previous && now == was
    case Recover =>
      && e.terminal !in was.recovering && 0 < previous && previous + 1 < e.seqNo
      && now == was.(recovering := was.recovering + {e.terminal}, queued := now.queued)
      && HeldBack(was.queued, now.queued, e)
    case Apply =>
      && e.terminal !in was.recovering && (e.seqNo == previous + 1 || (previous == 0 && e.seqNo > 0))
      && now == was.(last := was.last[e.terminal := e.seqNo])
  }

  lemma DeferHoldsBack(t: Tracker, e: Event)
    ensures HeldBack(t.queued, Defer(t, e).queued, e) && Defer(t, e) == t.(queued := Defer(t, e).queued)
  {
  }

  lemma ObserveClassifies(t: Tracker, e: Event)
    ensures Classified(t, Observe(t, e), e, Decide(t, e))
  {
    DeferHoldsBack(t, e);
    DeferHoldsBack(StartRecovery(t, e.terminal), e);
    hide HeldBack, Defer;
  }

  lemma HeldIsIn(was: map<TerminalId, seq<Event>>, now: map<TerminalId, seq<Event>>, e: Event)
    requires HeldBack(was, now, e)
    ensures e.terminal in now && e in now[e.terminal]
  {
    hide NewestOf;
    NewestHasTheLast(if e.terminal in was then was[e.terminal] else [], e, now[e.terminal]);
  }

  lemma NewestHasTheLast(before: seq<Event>, e: Event, kept: seq<Event>)
    requires NewestOf(before + [e], kept)
    ensures e in kept
  {
    assert kept[|kept| - 1] == (before + [e])[|before|];
  }

  /** The events to replay are the held ones newer than the snapshot, each as often as held, in ascending order. */
  ghost predicate ToReplay(held: seq<Event>, snapshot: nat, replay: seq<Event>) {
    && (forall i, j :: 0 <= i < j < |replay| ==> replay[i].seqNo <= replay[j].seqNo)
    && forall e :: multiset(replay)[e] == if e.seqNo > snapshot then multiset(held)[e] else 0
  }

  lemma {:induction false} NewerCounts(events: seq<Event>, snapshot: nat, e: Event)
    ensures multiset(Newer(events, snapshot))[e] == if e.seqNo > snapshot then multiset(events)[e] else 0
  {
    if events != [] {
      assert events == [events[0]] + events[1..];
      NewerCounts(events[1..], snapshot, e);
    }
  }

  lemma ReplayExactly(t: Tracker, id: TerminalId, snapshot: nat)
    ensures ToReplay(if id in t.queued then t.queued[id] else [], snapshot, Replay(t, id, snapshot))
  {
    SortIsOrderedPermutation(Newer(Queued(t, id), snapshot));
    forall e ensures multiset(Replay(t, id, snapshot))[e] ==
        if e.seqNo > snapshot then multiset(Queued(t, id))[e] else 0
    {
      NewerCounts(Queued(t, id), snapshot, e);
    }
  }

  /** No event is passed over: after it has arrived, what it says has been rendered, or its terminal recovers and the
      event is held back for the replay. */
  lemma NothingIsPassedOver(p: Panel, e: Event)
    ensures var q := Deliver(p, e);
            || (e.terminal in q.tracker.last && e.seqNo <= q.tracker.last[e.terminal])
            || e.seqNo == 0
            || (e.terminal in q.tracker.recovering && e.terminal in q.tracker.queued &&
                e in q.tracker.queued[e.terminal])
  {
    ObserveClassifies(p.tracker, e);
    hide HeldBack, Observe, Decide;
    if e.terminal in p.tracker.recovering || Decide(p.tracker, e).Recover? {
      HeldIsIn(p.tracker.queued, Observe(p.tracker, e).queued, e);
    }
  }

  /** What the panel does with an event it only holds back, and when a recovery starts or is abandoned: no view is
      touched, and of the tracker just what is named here. */
  lemma PanelStepsExactly(p: Panel, log: Log, e: Event, id: TerminalId)
    ensures var q := Next(p, Start(id), log);
            q == p.(tracker := p.tracker.(recovering := p.tracker.recovering + {id}))
    ensures var q := Next(p, Cancel(id), log);
            q == p.(tracker := p.tracker.(recovering := p.tracker.recovering - {id},
                                          queued := p.tracker.queued - {id}))
    ensures Next(p, Reset, log) == Panel(Tracker(map[], {}, map[]), map[], map[])
    ensures Genuine(e, log) ==>
              var q := Next(p, Hold(e), log);
              && HeldBack(p.tracker.queued, q.tracker.queued, e)
              && q == p.(tracker := p.tracker.(queued := q.tracker.queued))
  {
    DeferHoldsBack(p.tracker, e);
    hide HeldBack, Defer;
  }

  class TerminalSequenceTracker {
    var last: map<TerminalId, nat>
    var recovering: set<TerminalId>
    var queued: map<TerminalId, seq<Event>>

    ghost function Model(): Tracker
      reads this
    {
      Tracker(last, recovering, queued)
    }

    constructor ()
      ensures Model() == UNTRACKED
    {
      last, recovering, queued := map[], {}, map[];
    }

    method ObserveEvent(e: Event) returns (decision: Decision)
      modifies this
      ensures decision == Decide(old(Model()), e) && Model() == Observe(old(Model()), e)
      ensures Classified(old(Model()), Model(), e, decision)
    {
      ObserveClassifies(Model(), e);
      hide Classified;
      if e.terminal in recovering {
        DeferEvent(e);
        return Queue;
      }
      var previous := if e.terminal in last then last[e.terminal] else 0;
      if e.seqNo <= previous {
        return Ignore;
      }
      if previous > 0 && e.seqNo != previous + 1 {
        BeginRecovery(e.terminal);
        DeferEvent(e);
        return Recover;
      }
      last := last[e.terminal := e.seqNo];
      return Apply;
    }

    method DeferEvent(e: Event)
      modifies this`queued
      ensures Model() == Defer(old(Model()), e)
      ensures HeldBack(old(queued), queued, e)
    {
      DeferHoldsBack(Model(), e);
      hide HeldBack;
      var held := (if e.terminal in queued then queued[e.terminal] else []) + [e];
      if |held| > QUEUE_LIMIT {
        held := held[|held| - QUEUE_LIMIT..];
      }
      queued := queued[e.terminal := held];
    }

    method BeginRecovery(id: TerminalId)
      modifies this`recovering
      ensures Model() == StartRecovery(old(Model()), id)
      ensures recovering == old(recovering) + {id}
    {
      recovering := recovering + {id};
    }

    method EndRecovery(id: TerminalId, snapshot: nat) returns (replay: seq<Event>)
      modifies this
      ensures Model() == CompleteRecovery(old(Model()), id, snapshot)
      ensures replay == Replay(old(Model()), id, snapshot)
      ensures ToReplay(if id in old(queued) then old(queued)[id] else [], snapshot, replay)
      ensures last == old(last)[id := snapshot] && recovering == old(recovering) - {id} && queued == old(queued) - {id}
    {
      ReplayExactly(Model(), id, snapshot);
      hide ToReplay;
      last := last[id := snapshot];
      recovering := recovering - {id};
      var held := if id in queued then queued[id] else [];
      queued := queued - {id};
      replay := SortBySeq(Newer(held, snapshot));
    }

    method AbandonRecovery(id: TerminalId)
      modifies this
      ensures Model() == CancelRecovery(old(Model()), id)
      ensures last == old(last) && recovering == old(recovering) - {id} && queued == old(queued) - {id}
    {
      recovering, queued := recovering - {id}, queued - {id};
    }

    method Clear()
      modifies this
      ensures Model() == UNTRACKED
      ensures last == map[] && recovering == {} && queued == map[]
    {
      last, recovering, queued := map[], {}, map[];
    }
  }
}
