/** What callers of the durable execution port can rely on, over whole runs of its steps. */
module DurableRuns {
  import opened Options
  import opened DurableCommits

  /** A promise never changes its request, and once settled its outcome stays. */
  ghost predicate OutcomesStay(before: seq<Promise>, after: seq<Promise>) {
    |before| <= |after| && forall i :: 0 <= i < |before| ==> OutcomeStays(before[i], after[i])
  }

  predicate OutcomeStays(before: Promise, after: Promise) {
    && before.lineage == after.lineage && before.request == after.request
    && (!before.outcome.Pending? ==> after.outcome == before.outcome)
  }

  lemma SettlingKeepsOutcomes(s: State, l: nat, which: set<Request>, outcome: Outcome)
    requires l < |s.lineages|
    ensures OutcomesStay(s.promises, SettleWaiters(s, l, which, outcome).promises)
  {
  }

  /** A request's waiter is settled at most once. */
  lemma SettledStaysSettled(s: State, step: Step)
    requires Inv(s) && Enabled(s, step)
    ensures OutcomesStay(s.promises, Apply(s, step).promises)
  {
    hide Inv, SettleWaiters, OutcomesStay;
    SamePromises(s.promises);
    match step
    case BeginRequest(request) => MorePromises(s.promises, Apply(s, step).promises);
    case FailRequest(request) =>
      if HasCurrent(s) {
        SettlingKeepsOutcomes(s, CurrentBinding(s).lineage, {request}, Rejected);
      }
    case Forget(owner) =>
      if HasCurrent(s) {
        SettlingKeepsOutcomes(s, CurrentBinding(s).lineage, s.lineages[CurrentBinding(s).lineage].waiters.Keys,
            Rejected);
      }
    case Settle(l) => SettleKeepsOutcomes(s, l);
    case _ =>
  }

  lemma SamePromises(promises: seq<Promise>)
    ensures OutcomesStay(promises, promises)
  {
  }

  lemma MorePromises(before: seq<Promise>, after: seq<Promise>)
    requires before <= after
    ensures OutcomesStay(before, after)
  {
  }

  lemma SettleKeepsOutcomes(s: State, l: nat)
    requires Enabled(s, Settle(l))
    ensures OutcomesStay(s.promises, Apply(s, Settle(l)).promises)
  {
    hide SettleWaiters, OutcomesStay;
    SamePromises(s.promises);
    var run := RunOf(s, l);
    var i := run.job.binding;
    var b := s.bindings[i];
    if run.phase.Committed? {
      SettlingKeepsOutcomes(WithBinding(s, i, b.(record := s.store.versions[run.phase.version], isNew := false)), l,
          run.requests, Resolved);
    } else if run.phase.Loaded? {
      SettlingKeepsOutcomes(WithBinding(s, i, b.(record := s.store.versions[run.phase.version], isNew := false)), l,
          run.requests - run.phase.known, Rejected);
    } else {
      SettlingKeepsOutcomes(s, l, run.requests, Rejected);
      SettlingKeepsOutcomes(WithBinding(s, i, b.(invalid := true)), l, s.lineages[l].waiters.Keys, Rejected);
    }
  }

  lemma DeadStaysDead(s: State, step: Step, i: nat)
    requires Inv(s) && Enabled(s, step) && i < |s.bindings| && !Alive(s, i)
    ensures i < |Apply(s, step).bindings| && !Alive(Apply(s, step), i)
  {
    hide Inv, SettledCommit;
    if step.Settle? {
      SettlingRevivesNone(s, step.lineage, i);
    }
  }

  /** Settling a commit replaces no binding and makes none valid again. */
  lemma SettlingRevivesNone(s: State, l: nat, i: nat)
    requires HasRun(s, l) && Answered(s, RunOf(s, l)) && i < |s.bindings|
    ensures |SettledCommit(s, l).bindings| == |s.bindings| && SettledCommit(s, l).current == s.current
    ensures s.bindings[i].invalid ==> SettledCommit(s, l).bindings[i].invalid
  {
  }

  /** Once invalid or replaced, a binding stays so, and no commit on it is sent to the store again. */
  lemma DeadBindingsNeverWrite(s: State, step: Step, i: nat)
    requires Inv(s) && Enabled(s, step) && i < |s.bindings| && !Alive(s, i)
    ensures i < |Apply(s, step).bindings| && !Alive(Apply(s, step), i)
    ensures CallsOf(Apply(s, step).calls, i) == CallsOf(s.calls, i)
  {
    DeadStaysDead(s, step, i);
    hide Inv, CallsOf;
    if step.Begin? {
      CallsOfAppend(s.calls, s.lineages[step.lineage].queue[0].binding, i);
    }
  }

  /** How many commits of a binding were sent to the store. */
  function CallsOf(calls: seq<nat>, i: nat): nat {
    if calls == [] then 0 else CallsOf(calls[..|calls| - 1], i) + if calls[|calls| - 1] == i then 1 else 0
  }

  lemma CallsOfAppend(calls: seq<nat>, j: nat, i: nat)
    ensures CallsOf(calls + [j], i) == CallsOf(calls, i) + if i == j then 1 else 0
  {
    assert (calls + [j])[..|calls|] == calls;
  }

  /** What the store's answers are to a commit: applied, it is the next version, of which the commit learns only from
      a reply; refused, nothing is stored; and a load brings the newest record and which requests it holds. */
  lemma AnswersExactly(s: State, l: nat, lastSeq: nat, body: nat, replies: bool)
    requires HasRun(s, l)
    ensures Enabled(s, StoreApplies(l, lastSeq, body, replies)) ==>
              var t := Apply(s, StoreApplies(l, lastSeq, body, replies));
              var n := |s.store.versions|;
              && t.store.versions == s.store.versions + [Record(n + 1, lastSeq, body)]
              && t.store.stored == s.store.stored + RunOf(s, l).requests
              && t.lineages == s.lineages[l := s.lineages[l].(running :=
                   Some(RunOf(s, l).(phase := if replies then Committed(n) else Failed)))]
    ensures Enabled(s, StoreRefuses(l)) ==>
              Apply(s, StoreRefuses(l)) ==
                s.(lineages := s.lineages[l := s.lineages[l].(running := Some(RunOf(s, l).(phase := Failed)))])
    ensures Enabled(s, LoadAnswers(l)) ==>
              Apply(s, LoadAnswers(l)) ==
                s.(lineages := s.lineages[l := s.lineages[l].(running :=
                     Some(RunOf(s, l).(phase := Loaded(|s.store.versions| - 1,
                                                       RunOf(s, l).requests * s.store.stored))))])
    ensures Enabled(s, LoadFails(l)) ==>
              Apply(s, LoadFails(l)) ==
                s.(lineages := s.lineages[l := s.lineages[l].(running := Some(RunOf(s, l).(phase := Unknown)))])
  {
  }

  /** When the store may answer a commit: it applies one that inserts a session it has not, or updates the very
      revision and number it holds; it may refuse any; the session is loaded after a failure if there is one; and
      others write to it at any time. */
  lemma AnswersWhen(s: State, l: nat, lastSeq: nat, body: nat, replies: bool, requests: set<Request>)
    requires Inv(s) && l < |s.lineages| && s.lineages[l].running.Some?
    ensures HasRun(s, l)
    ensures var run, versions := RunOf(s, l), s.store.versions;
            && (Enabled(s, StoreApplies(l, lastSeq, body, replies)) <==>
                 && run.phase == Committing
                 && if run.first then versions == []
                    else versions != [] && versions[|versions| - 1].revision == run.expected.revision
                         && versions[|versions| - 1].lastSeq == run.expected.lastSeq)
            && (Enabled(s, StoreRefuses(l)) <==> run.phase == Committing)
            && (Enabled(s, LoadAnswers(l)) <==> run.phase == Failed && versions != [])
            && (Enabled(s, LoadFails(l)) <==> run.phase == Failed)
            && (Enabled(s, Settle(l)) <==> run.phase.Committed? || run.phase.Loaded? || run.phase == Unknown)
            && (Enabled(s, OtherWrite(lastSeq, body, requests)) <==> versions != [])
            && (versions != [] ==>
                  Apply(s, OtherWrite(lastSeq, body, requests)) ==
                    s.(store := Store(versions + [Record(|versions| + 1, lastSeq, body)], s.store.stored + requests)))
  {
    hide Inv;
    RunInOrder(s, l);
  }

  /** A commit is applied only on top of the very record its binding held: nobody's update is lost. */
  lemma NoUpdateIsLost(s: State, step: Step)
    requires Inv(s) && step.StoreApplies? && Enabled(s, step)
    ensures RunOf(s, step.lineage).first ==> s.store.versions == []
    ensures !RunOf(s, step.lineage).first ==>
              s.store.versions != [] && RunOf(s, step.lineage).expected == s.store.versions[|s.store.versions| - 1]
  {
    assert RunOk(s, step.lineage);
    assert StoreOk(s.store);
  }

  /** What a commit that reached the store may leave of its binding: after success the very record it stored;
      after a failure the newest record there was when the session was loaded, which no earlier than the commit
      began; and without either, a binding invalid or still new. */
  predicate LeftBy(run: Run, store: Store, before: Binding, after: Binding) {
    match run.phase
    case Committed(version) =>
      run.since <= version < |store.versions| && after.record == store.versions[version] && !after.isNew
    case Loaded(version, _) =>
      run.since <= version + 1 <= |store.versions| && after.record == store.versions[version] && !after.isNew
    case _ => after.record == before.record && (after.invalid || (before.isNew && after.isNew))
  }

  /** When a commit that reached the store settles, its binding holds what the store held by then, or is invalid
      or still new and unconfirmed, however the commit and its recovery failed. */
  lemma SettledCommitIsTrue(s: State, l: nat)
    requires Inv(s) && Enabled(s, Settle(l))
    ensures RunOf(s, l).job.binding < |Apply(s, Settle(l)).bindings|
    ensures LeftBy(RunOf(s, l), s.store, s.bindings[RunOf(s, l).job.binding],
                   Apply(s, Settle(l)).bindings[RunOf(s, l).job.binding])
  {
    hide Inv, SettleWaiters;
    RunInOrder(s, l);
    SettleWaitersTouchesOnlyWaiters(s, l);
  }

  lemma RunInOrder(s: State, l: nat)
    requires Inv(s) && l < |s.lineages|
    ensures RunOk(s, l) && (s.lineages[l].running.Some? ==> HasRun(s, l))
  {
  }

  lemma SettleWaitersTouchesOnlyWaiters(s: State, l: nat)
    requires l < |s.lineages|
    ensures forall t: State, which: set<Request>, outcome: Outcome :: |t.lineages| == |s.lineages| ==>
              SettleWaiters(t, l, which, outcome).bindings == t.bindings
  {
  }

  /** A commit settles with its binding still new only if it was new before and could not find out. */
  lemma StillNewMeansUnconfirmed(s: State, l: nat)
    requires Inv(s) && Enabled(s, Settle(l))
    ensures var i := RunOf(s, l).job.binding;
            Apply(s, Settle(l)).bindings[i].isNew <==> s.bindings[i].isNew && RunOf(s, l).phase.Unknown?
  {
    hide Inv, SettleWaiters;
    SettleWaitersTouchesOnlyWaiters(s, l);
  }

  /** After a failed commit of a tool batch the binding is invalid; other failures make it so exactly when
      the recovery fails too and the session was known to be stored, or is internal. */
  lemma FailureInvalidatesExactly(s: State, l: nat)
    requires Inv(s) && Enabled(s, Settle(l)) && !RunOf(s, l).phase.Committed?
    ensures var i := RunOf(s, l).job.binding;
            Apply(s, Settle(l)).bindings[i].invalid <==>
              || RunOf(s, l).job.toolBatch || s.bindings[i].invalid
              || (RunOf(s, l).phase.Unknown? && (s.bindings[i].internal || !s.bindings[i].isNew))
  {
    hide Inv, SettleWaiters;
    SettleWaitersTouchesOnlyWaiters(s, l);
  }

  predicate Waits(s: State, l: nat, i: nat) {
    i < |s.promises| && s.promises[i].lineage == l && s.promises[i].outcome.Pending?
  }

  /** What the settled commit of a public session tells a waiter of its lineage: its own requests are
      resolved after success; after a failure they are rejected unless the load found them stored; if the
      load failed too they are rejected, and with a session known to be stored so are all others. */
  lemma WaitersLearnTheOutcome(s: State, l: nat, i: nat)
    requires Inv(s) && Enabled(s, Settle(l)) && Waits(s, l, i) && !s.bindings[RunOf(s, l).job.binding].internal
    ensures Apply(s, Settle(l)).promises[i].outcome
        == ToldTo(RunOf(s, l), s.bindings[RunOf(s, l).job.binding].isNew, s.promises[i].request)
  {
    hide Inv;
    PromiseInOrder(s, i);
  }

  lemma PromiseInOrder(s: State, i: nat)
    requires Inv(s) && i < |s.promises|
    ensures PromiseOk(s, i)
  {
  }

  function ToldTo(run: Run, isNew: bool, request: Request): Outcome {
    match run.phase
    case Committed(_) => if request in run.requests then Resolved else Pending
    case Loaded(_, known) => if request in run.requests && request !in known then Rejected else Pending
    case _ => if request in run.requests || !isNew then Rejected else Pending
  }

  /** Loading and settling: of the failed commit's waiters, just those not stored are rejected. */
  lemma RecoveryRejectsTheUnstored(s: State, l: nat, i: nat)
    requires Inv(s) && Enabled(s, LoadAnswers(l)) && Waits(s, l, i) && !s.bindings[RunOf(s, l).job.binding].internal
    requires s.promises[i].request in RunOf(s, l).requests
    ensures Apply(Apply(s, LoadAnswers(l)), Settle(l)).promises[i].outcome
         == if s.promises[i].request in s.store.stored then Pending else Rejected
  {
    var loaded := Apply(s, LoadAnswers(l));
    StepKeepsInv(s, LoadAnswers(l));
    hide Inv, SettledCommit;
    WaitersLearnTheOutcome(loaded, l, i);
  }

  ghost predicate Interleaving(s: State, steps: seq<Step>)
    decreases |steps|
  {
    steps == [] || (Enabled(s, steps[0]) && Interleaving(Apply(s, steps[0]), steps[1..]))
  }

  ghost function After(s: State, steps: seq<Step>): State
    requires Interleaving(s, steps)
    decreases |steps|
  {
    if steps == [] then s else After(Apply(s, steps[0]), steps[1..])
  }

  lemma {:induction false} InterleavingsKeepInv(s: State, steps: seq<Step>)
    requires Inv(s) && Interleaving(s, steps)
    ensures Inv(After(s, steps))
    decreases |steps|
  {
    hide Inv, Apply, Enabled;
    if steps != [] {
      StepKeepsInv(s, steps[0]);
      InterleavingsKeepInv(Apply(s, steps[0]), steps[1..]);
    }
  }

  /** In every interleaving: a resolved request has its user message in the store, a pending one belongs to
      the current binding, and the commits of a lineage start in call order, one at a time. */
  lemma EveryReachablePort(steps: seq<Step>)
    requires Interleaving(EMPTY_STATE, steps)
    ensures forall p :: p in After(EMPTY_STATE, steps).promises && p.outcome.Resolved? ==>
              p.request in After(EMPTY_STATE, steps).store.stored
    ensures forall p :: p in After(EMPTY_STATE, steps).promises && p.outcome.Pending? ==>
              HasCurrent(After(EMPTY_STATE, steps)) && CurrentBinding(After(EMPTY_STATE, steps)).lineage == p.lineage
    ensures forall l :: 0 <= l < |After(EMPTY_STATE, steps).lineages| ==>
        InCallOrder(After(EMPTY_STATE, steps).lineages[l])
  {
    assert Inv(EMPTY_STATE);
    InterleavingsKeepInv(EMPTY_STATE, steps);
    var s := After(EMPTY_STATE, steps);
    hide After, Interleaving;
    forall p | p in s.promises
      ensures p.outcome.Resolved? ==> p.request in s.store.stored
      ensures p.outcome.Pending? ==> HasCurrent(s) && CurrentBinding(s).lineage == p.lineage
    {
      var i :| 0 <= i < |s.promises| && s.promises[i] == p;
      assert PromiseOk(s, i) && WaitersOk(s, p.lineage);
    }
    forall l | 0 <= l < |s.lineages| ensures InCallOrder(s.lineages[l]) {
      assert QueueOk(s, l);
    }
  }

  /** The running commit is the last one started, and the waiting ones are those called since, in order. */
  predicate InCallOrder(line: Lineage) {
    && (line.running.Some? ==> line.running.value.job.ticket + 1 == line.begun)
    && forall k :: 0 <= k < |line.queue| ==> line.queue[k].ticket == line.begun + k
  }

  lemma {:induction false} RunsKeepOutcomes(s: State, steps: seq<Step>)
    requires Inv(s) && Interleaving(s, steps)
    ensures OutcomesStay(s.promises, After(s, steps).promises)
    decreases |steps|
  {
    hide Inv, Apply, Enabled;
    if steps != [] {
      StepKeepsInv(s, steps[0]);
      SettledStaysSettled(s, steps[0]);
      RunsKeepOutcomes(Apply(s, steps[0]), steps[1..]);
    }
  }

  /** Over any further run, a binding once invalid or replaced sends nothing to the store. */
  lemma {:induction false} DeadOverRuns(s: State, steps: seq<Step>, i: nat)
    requires Inv(s) && Interleaving(s, steps) && i < |s.bindings| && !Alive(s, i)
    ensures i < |After(s, steps).bindings| && !Alive(After(s, steps), i)
    ensures CallsOf(After(s, steps).calls, i) == CallsOf(s.calls, i)
    decreases |steps|
  {
    hide Inv, Apply, Enabled, Alive, CallsOf;
    if steps != [] {
      StepKeepsInv(s, steps[0]);
      DeadBindingsNeverWrite(s, steps[0], i);
      DeadOverRuns(Apply(s, steps[0]), steps[1..], i);
    }
  }
}
