/** `DurableExecutionStatePort` for one session: the methods its callers use and the parts of a commit
    before and after the store has answered. */
module DurableExecutionPort {
  import opened Options
  import opened DurableCommits

  /** One waiter more is settled. */
  lemma SettleOneMore(s: State, l: nat, done: set<Request>, r: Request, outcome: Outcome)
    requires Inv(s) && l < |s.lineages| && r !in done && !outcome.Pending?
    ensures var t := SettleWaiters(s, l, done, outcome);
            var more := SettleWaiters(s, l, done + {r}, outcome);
            if r in t.lineages[l].waiters then
              && t.lineages[l].waiters[r] < |t.promises|
              && more == t.(promises := t.promises[t.lineages[l].waiters[r] :=
                   t.promises[t.lineages[l].waiters[r]].(outcome := outcome)],
                            lineages := t.lineages[l := t.lineages[l].(waiters := t.lineages[l].waiters - {r})])
            else more == t
  {
    var t := SettleWaiters(s, l, done, outcome);
    var more := SettleWaiters(s, l, done + {r}, outcome);
    assert WaitersOk(s, l);
    assert more.lineages[l].waiters == t.lineages[l].waiters - {r};
    forall i | 0 <= i < |s.promises| ensures IsWaiting(s.promises[i], l, {r}) <==>
        r in s.lineages[l].waiters && s.lineages[l].waiters[r] == i
    {
      assert PromiseOk(s, i);
    }
    if r in t.lineages[l].waiters {
      var id := t.lineages[l].waiters[r];
      assert more.promises == t.promises[id := t.promises[id].(outcome := outcome)];
    } else {
      assert more.promises == t.promises;
      assert more.lineages[l].waiters == t.lineages[l].waiters;
      assert more.lineages == t.lineages;
    }
  }

  lemma SettleNone(s: State, l: nat, outcome: Outcome)
    requires l < |s.lineages|
    ensures SettleWaiters(s, l, {}, outcome) == s
  {
    var t := SettleWaiters(s, l, {}, outcome);
    assert t.promises == s.promises;
    assert t.lineages[l].waiters == s.lineages[l].waiters;
    assert t.lineages == s.lineages;
  }

  /** The waiters of one lineage for these requests are off its map, their pending promises have the outcome, and
      nothing else of any lineage or promise has changed. */
  ghost predicate Told(wasLineages: seq<Lineage>, lineages: seq<Lineage>, wasPromises: seq<Promise>,
      promises: seq<Promise>, l: nat, which: set<Request>, outcome: Outcome)
  {
    && l < |wasLineages|
    && lineages == wasLineages[l := wasLineages[l].(waiters := wasLineages[l].waiters - which)]
    && |promises| == |wasPromises|
    && forall i :: 0 <= i < |promises| ==>
         var p := wasPromises[i];
         var told := p.lineage == l && p.outcome == Pending && p.request in which;
         promises[i] == if told then p.(outcome := outcome) else p
  }

  lemma SettlingTells(s: State, l: nat, which: set<Request>, outcome: Outcome)
    requires l < |s.lineages|
    ensures var t := SettleWaiters(s, l, which, outcome);
            && Told(s.lineages, t.lineages, s.promises, t.promises, l, which, outcome)
            && t == s.(lineages := t.lineages, promises := t.promises)
  {
  }

  /** The binding after its commit: what the store has stored or the load has brought, or invalid; a failed commit
      of a tool batch makes it invalid whatever was brought. */
  ghost predicate BindingAfter(phase: Phase, toolBatch: bool, was: Binding, now: Binding, store: Store) {
    match phase
    case Committed(version) =>
      version < |store.versions| && now == was.(record := store.versions[version], isNew := false)
    case Loaded(version, _) =>
      && version < |store.versions|
      && now == was.(record := store.versions[version], isNew := false, invalid := was.invalid || toolBatch)
    case _ => now == was.(invalid := was.invalid || toolBatch || was.internal || !was.isNew)
  }

  /** Whom the end of a commit tells: its own requests; less those found stored; or everybody who waits. */
  ghost function ToldOf(run: Run, was: Binding, waiting: set<Request>): set<Request> {
    match run.phase
    case Committed(_) => run.requests
    case Loaded(_, known) => run.requests - known
    case _ => if was.isNew then run.requests else waiting
  }

  /** A commit that is neither at the store nor waiting for its recovery can be settled. */
  lemma AnsweredRuns(s: State, l: nat)
    requires Inv(s) && l < |s.lineages| && s.lineages[l].running.Some?
    ensures HasRun(s, l)
    ensures Answered(s, RunOf(s, l)) <==> !RunOf(s, l).phase.Committing? && !RunOf(s, l).phase.Failed?
  {
    assert RunOk(s, l);
  }

  /** A commit the store has confirmed has its requests stored. */
  lemma CommittedIsStored(s: State, l: nat)
    requires Inv(s) && HasRun(s, l) && RunOf(s, l).phase.Committed?
    ensures RunOf(s, l).requests <= s.store.stored
  {
    assert RunOk(s, l);
  }

  /** What the store's last answer leaves: the binding of the commit, and who has been told. Nobody waits for a commit
      of an internal session. */
  ghost predicate Brought(run: Run, toolBatch: bool, l: nat, wasBindings: seq<Binding>, bindings: seq<Binding>,
      wasLineages: seq<Lineage>, lineages: seq<Lineage>, wasPromises: seq<Promise>, promises: seq<Promise>,
      store: Store)
  {
    var i := run.job.binding;
    && i < |wasBindings| == |bindings| && l < |wasLineages| == |lineages|
    && bindings == wasBindings[i := bindings[i]]
    && BindingAfter(run.phase, toolBatch, wasBindings[i], bindings[i], store)
    && if wasBindings[i].internal then lineages == wasLineages && promises == wasPromises
       else
         Told(wasLineages, lineages, wasPromises, promises, l,
              ToldOf(run, wasBindings[i], wasLineages[l].waiters.Keys),
              if run.phase.Committed? then Resolved else Rejected)
  }

  /** The whole effect of the end of a commit: that, and the next one may begin. */
  ghost predicate Finished(run: Run, l: nat, wasBindings: seq<Binding>, bindings: seq<Binding>,
      wasLineages: seq<Lineage>, lineages: seq<Lineage>, wasPromises: seq<Promise>, promises: seq<Promise>,
      store: Store)
  {
    && l < |wasLineages|
    && Brought(run, run.job.toolBatch, l, wasBindings, bindings,
               wasLineages[l := wasLineages[l].(running := None)], lineages, wasPromises, promises, store)
  }

  lemma RecoveryBrings(s: State, l: nat)
    requires Inv(s) && Enabled(s, Settle(l)) && !RunOf(s, l).phase.Committed?
    ensures var t := Recovered(s, l);
            && Brought(RunOf(s, l), false, l, s.bindings, t.bindings, s.lineages, t.lineages, s.promises, t.promises,
                       s.store)
            && t.store == s.store && t.calls == s.calls && t.current == s.current
  {
    hide Inv;
  }

  lemma SuccessFinishes(s: State, l: nat)
    requires Inv(s) && Enabled(s, Settle(l)) && RunOf(s, l).phase.Committed?
    ensures CommitFinished(s, Apply(s, Settle(l)), l)
  {
    hide Inv, Recovered;
  }

  lemma FailureFinishes(s: State, l: nat)
    requires Inv(s) && Enabled(s, Settle(l)) && !RunOf(s, l).phase.Committed?
    ensures CommitFinished(s, Apply(s, Settle(l)), l)
  {
    hide Inv, Recovered, Told;
    RecoveryBrings(s, l);
    var r := Recovered(s, l);
    var which := ToldOf(RunOf(s, l), s.bindings[RunOf(s, l).job.binding], s.lineages[l].waiters.Keys);
    if Told(s.lineages, r.lineages, s.promises, r.promises, l, which, Rejected) {
      ToldWithoutRun(s.lineages, r.lineages, s.promises, r.promises, l, which);
    }
  }

  /** That the run is over makes no difference to who has been told. */
  lemma ToldWithoutRun(was: seq<Lineage>, now: seq<Lineage>, wasPromises: seq<Promise>, promises: seq<Promise>, l: nat,
      which: set<Request>)
    requires Told(was, now, wasPromises, promises, l, which, Rejected)
    ensures |now| == |was|
    ensures Told(was[l := was[l].(running := None)], now[l := now[l].(running := None)], wasPromises, promises,
                 l, which, Rejected)
  {
  }

  ghost predicate CommitFinished(s: State, t: State, l: nat)
    requires HasRun(s, l)
  {
    && Finished(RunOf(s, l), l, s.bindings, t.bindings, s.lineages, t.lineages, s.promises, t.promises, s.store)
    && t.store == s.store && t.calls == s.calls && t.current == s.current
  }

  lemma CommitFinishes(s: State, l: nat)
    requires Inv(s) && Enabled(s, Settle(l))
    ensures RunOf(s, l).job.binding < |s.bindings|
    ensures CommitFinished(s, Apply(s, Settle(l)), l)
  {
    hide Inv, Apply, CommitFinished;
    if RunOf(s, l).phase.Committed? {
      SuccessFinishes(s, l);
    } else {
      FailureFinishes(s, l);
    }
  }

  class DurableExecutionStatePort {
    var bindings: seq<Binding>
    var current: Option<nat>
    var lineages: seq<Lineage>
    var promises: seq<Promise>
    /** What the store has held, and which bindings' commits were sent to it. */
    var store: Store
    var calls: seq<nat>

    ghost function Model(): State
      reads this
    {
      State(bindings, current, lineages, promises, store, calls)
    }

    ghost predicate Valid()
      reads this
    {
      Inv(Model())
    }

    constructor ()
      ensures Model() == EMPTY_STATE && Valid()
    {
      bindings, current, lineages, promises := [], None, [], [];
      store, calls := Store([], {}), [];
    }

    /** Takes waiters off the map of a lineage and settles each of them. */
    method SettleEach(l: nat, which: set<Request>, outcome: Outcome)
      requires Valid() && l < |lineages| && !outcome.Pending?
      requires outcome.Resolved? ==> which <= store.stored
      modifies this`promises, this`lineages
      ensures Model() == SettleWaiters(old(Model()), l, which, outcome) && Valid()
      ensures Told(old(lineages), lineages, old(promises), promises, l, which, outcome)
    {
      SettlingTells(Model(), l, which, outcome);
      hide Inv, SettleWaiters, Told;
      ghost var start := Model();
      var todo := which;
      ghost var done: set<Request> := {};
      SettleNone(start, l, outcome);
      while todo != {}
        invariant l < |lineages| && todo !! done && todo + done == which
        invariant Model() == SettleWaiters(start, l, done, outcome)
        decreases todo
      {
        var r :| r in todo;
        SettleOneMore(start, l, done, r, outcome);
        SettleKeepsShape(start, l, done + {r}, outcome);
        if r in lineages[l].waiters {
          var id := lineages[l].waiters[r];
          promises := promises[id := promises[id].(outcome := outcome)];
          lineages := lineages[l := lineages[l].(waiters := lineages[l].waiters - {r})];
        }
        todo, done := todo - {r}, done + {r};
      }
      assert done == which;
      SettleWaitersKeepsInv(start, l, which, outcome);
    }

    method RegisterBinding(record: Record, isNew: bool, owner: Owner, internal: bool) returns (accepted: bool)
      requires Valid()
      requires !isNew ==> Held(store, record)
      modifies this
      ensures accepted ==> Enabled(old(Model()), Register(record, isNew, owner, internal))
                           && Model() == Apply(old(Model()), Register(record, isNew, owner, internal))
      ensures !accepted ==> Model() == old(Model())
      ensures old(current).Some? ==> old(current).value < |old(bindings)|
      ensures !accepted <==> (isNew && (record.lastSeq != 0 || record.revision != 1))
                             || (old(current).Some? && old(bindings)[old(current).value].owner != owner)
      ensures accepted ==>
        && current == Some(|old(bindings)|) && promises == old(promises)
        && (if old(current).Some?
            then lineages == old(lineages) && bindings == old(bindings) +
                   [Binding(record, isNew, owner, old(bindings)[old(current).value].lineage, false, internal)]
            else lineages == old(lineages) + [Lineage(map[], [], 0, None)] && bindings == old(bindings) +
                   [Binding(record, isNew, owner, |old(lineages)|, false, internal)])
      ensures Valid()
    {
      CurrentIsBound(Model());
      hide Inv, Held;
      if isNew && (record.lastSeq != 0 || record.revision != 1) {
        return false;
      }
      StepKeepsInv(Model(), Register(record, isNew, owner, internal));
      var l := |lineages|;
      if current.Some? {
        if bindings[current.value].owner != owner {
          return false;
        }
        l := bindings[current.value].lineage;
      } else {
        lineages := lineages + [Lineage(map[], [], 0, None)];
      }
      current := Some(|bindings|);
      bindings := bindings + [Binding(record, isNew, owner, l, false, internal)];
      accepted := true;
    }

    method ApplyDurableRecord(record: Record, owner: Owner) returns (applied: bool)
      requires Valid() && Held(store, record)
      modifies this`bindings
      ensures Model() == Apply(old(Model()), ApplyRecord(record, owner)) && Valid()
      ensures applied <==> old(CurrentOwnedAndValid(owner))
      ensures applied ==> bindings == old(bindings)[current.value :=
          old(bindings)[current.value].(record := record, isNew := false)]
      ensures !applied ==> bindings == old(bindings)
    {
      CurrentIsBound(Model());
      hide Inv, Held;
      StepKeepsInv(Model(), ApplyRecord(record, owner));
      applied := current.Some? && bindings[current.value].owner == owner && !bindings[current.value].invalid;
      if applied {
        var i := current.value;
        bindings := bindings[i := bindings[i].(record := record, isNew := false)];
      }
    }

    ghost predicate CurrentOwnedAndValid(owner: Owner)
      reads this
    {
      && current.Some? && current.value < |bindings|
      && bindings[current.value].owner == owner && !bindings[current.value].invalid
    }

    /** The promise of a client request, made once per request while it waits. */
    method StartRequest(request: Request) returns (promise: Option<nat>)
      requires Valid()
      modifies this`promises, this`lineages
      ensures Model() == Apply(old(Model()), BeginRequest(request)) && Valid()
      ensures current.Some? ==> current.value < |bindings| && bindings[current.value].lineage < |old(lineages)|
      ensures promise.None? <==> current.None? || bindings[current.value].invalid
      ensures promise.None? ==> promises == old(promises) && lineages == old(lineages)
      ensures promise.Some? ==>
        var l := bindings[current.value].lineage;
        var waiters := old(lineages)[l].waiters;
        if request in waiters
        then promise.value == waiters[request] && promises == old(promises) && lineages == old(lineages)
        else
          && promise.value == |old(promises)| && promises == old(promises) + [Promise(l, request, Pending)]
          && lineages == old(lineages)[l := old(lineages)[l].(waiters := waiters[request := |old(promises)|])]
      ensures promise.Some? ==>
        && promise.value < |promises|
        && promises[promise.value].request == request && promises[promise.value].outcome.Pending?
    {
      CurrentIsBound(Model());
      assert current.Some? ==> WaitersOk(Model(), bindings[current.value].lineage);
      hide Inv;
      StepKeepsInv(Model(), BeginRequest(request));
      if current.None? || bindings[current.value].invalid {
        return None;
      }
      var l := bindings[current.value].lineage;
      if request in lineages[l].waiters {
        return Some(lineages[l].waiters[request]);
      }
      promise := Some(|promises|);
      lineages := lineages[l := lineages[l].(waiters := lineages[l].waiters[request := |promises|])];
      promises := promises + [Promise(l, request, Pending)];
    }

    method RejectRequest(request: Request)
      requires Valid()
      modifies this`promises, this`lineages
      ensures Model() == Apply(old(Model()), FailRequest(request)) && Valid()
      ensures current.None? ==> promises == old(promises) && lineages == old(lineages)
      ensures current.Some? ==>
        && current.value < |bindings|
        && Told(old(lineages), lineages, old(promises), promises, bindings[current.value].lineage, {request}, Rejected)
    {
      CurrentIsBound(Model());
      hide Inv, SettleWaiters;
      if current.Some? {
        SettleEach(bindings[current.value].lineage, {request}, Rejected);
      }
    }

    method ForgetBinding(owner: Owner)
      requires Valid()
      modifies this
      ensures Model() == Apply(old(Model()), Forget(owner)) && Valid()
      ensures old(current).Some? ==> old(current).value < |bindings|
      ensures bindings == old(bindings)
      ensures if old(current).Some? && bindings[old(current).value].owner == owner
              then
                var l := bindings[old(current).value].lineage;
                && current == None && l < |old(lineages)|
                && Told(old(lineages), lineages, old(promises), promises, l, old(lineages)[l].waiters.Keys, Rejected)
              else Model() == old(Model())
    {
      CurrentIsBound(Model());
      hide Inv, SettleWaiters;
      StepKeepsInv(Model(), Forget(owner));
      if current.Some? && bindings[current.value].owner == owner {
        var l := bindings[current.value].lineage;
        SettleEach(l, lineages[l].waiters.Keys, Rejected);
        current := None;
      }
    }

    /** `commit` puts its work behind the tail of the binding it was called on. */
    method QueueCommit(toolBatch: bool) returns (queued: bool)
      requires Valid()
      modifies this`lineages
      ensures Model() == Apply(old(Model()), Commit(toolBatch)) && Valid()
      ensures current.Some? ==> current.value < |bindings| && bindings[current.value].lineage < |old(lineages)|
      ensures queued <==> current.Some? && !bindings[current.value].invalid
      ensures queued ==>
        var l := bindings[current.value].lineage;
        var line := old(lineages)[l];
        var job := Job(current.value, line.begun + |line.queue|, toolBatch);
        lineages == old(lineages)[l := line.(queue := line.queue + [job])]
      ensures !queued ==> lineages == old(lineages)
    {
      CurrentIsBound(Model());
      hide Inv;
      StepKeepsInv(Model(), Commit(toolBatch));
      queued := current.Some? && !bindings[current.value].invalid;
      if queued {
        var l := bindings[current.value].lineage;
        var line := lineages[l];
        lineages := lineages[l := line.(queue := line.queue +
            [Job(current.value, line.begun + |line.queue|, toolBatch)])];
      }
    }

    /** The next commit of a lineage begins, and is sent to the store if its binding is still good. */
    method BeginNext(l: nat, prepared: bool, requests: set<Request>, nothing: bool) returns (sent: bool)
      requires Valid() && l < |lineages| && lineages[l].running.None? && lineages[l].queue != []
      modifies this
      ensures Model() == Apply(old(Model()), Begin(l, prepared, requests, nothing)) && Valid()
      ensures old(lineages)[l].queue[0].binding < |bindings|
      ensures bindings == old(bindings) && current == old(current) && promises == old(promises) && store == old(store)
      ensures var job := old(lineages)[l].queue[0];
              var b := bindings[job.binding];
              && (sent <==> current == Some(job.binding) && !b.invalid && prepared && (b.isNew || !nothing))
              && calls == (if sent then old(calls) + [job.binding] else old(calls))
              && lineages == old(lineages)[l := Lineage(old(lineages)[l].waiters, old(lineages)[l].queue[1..],
                   old(lineages)[l].begun + 1,
                   if sent then Some(Run(job, requests, b.isNew, b.record, |store.versions|, Committing)) else None)]
    {
      assert QueueOk(Model(), l);
      hide Inv;
      StepKeepsInv(Model(), Begin(l, prepared, requests, nothing));
      var job := lineages[l].queue[0];
      var line := lineages[l].(queue := lineages[l].queue[1..], begun := lineages[l].begun + 1);
      var needed := !nothing || bindings[job.binding].isNew;
      sent := current == Some(job.binding) && !bindings[job.binding].invalid && prepared && needed;
      if sent {
        var b := bindings[job.binding];
        line := line.(running := Some(Run(job, requests, b.isNew, b.record, |store.versions|, Committing)));
        calls := calls + [job.binding];
      }
      lineages := lineages[l := line];
    }

    /** The recovery after a failed store call, once the attempt to load the session has come back. */
    method Recover(l: nat)
      requires Valid() && l < |lineages| && lineages[l].running.Some?
      requires lineages[l].running.value.phase.Loaded? || lineages[l].running.value.phase.Unknown?
      modifies this
      ensures old(HasRun(Model(), l) && Answered(Model(), RunOf(Model(), l)))
      ensures Model() == Recovered(old(Model()), l) && Valid()
      ensures current == old(current) && store == old(store) && calls == old(calls)
      ensures Brought(old(RunOf(Model(), l)), false, l, old(bindings), bindings, old(lineages), lineages, old(promises),
                      promises, store)
    {
      AnsweredRuns(Model(), l);
      RecoveryBrings(Model(), l);
      hide Brought;
      RecoveredKeepsInv(Model(), l);
      var run := lineages[l].running.value;
      var i := run.job.binding;
      var b := bindings[i];
      HeldByBinding(Model(), i);
      if run.phase.Loaded? {
        VersionIsHeldIn(Model(), run.phase.version);
        hide Inv, Held, SettleWaiters;
        BindingChangeKeepsInv(Model(), i, b.(record := store.versions[run.phase.version], isNew := false));
        bindings := bindings[i := b.(record := store.versions[run.phase.version], isNew := false)];
        if !b.internal {
          SettleEach(l, run.requests - run.phase.known, Rejected);
        }
      } else if b.isNew && !b.internal {
        hide Inv, Held, SettleWaiters;
        SettleEach(l, run.requests, Rejected);
      } else {
        hide Inv, Held, SettleWaiters;
        BindingChangeKeepsInv(Model(), i, b.(invalid := true));
        bindings := bindings[i := b.(invalid := true)];
        if !b.internal {
          SettleEach(l, lineages[l].waiters.Keys, Rejected);
        }
      }
    }

    /** The part of a commit after the store's last answer: confirm and resolve, or recover. */
    method FinishCommit(l: nat)
      requires Valid() && l < |lineages| && lineages[l].running.Some?
      requires !lineages[l].running.value.phase.Committing? && !lineages[l].running.value.phase.Failed?
      modifies this
      ensures old(Enabled(Model(), Settle(l)))
      ensures Model() == Apply(old(Model()), Settle(l)) && Valid()
      ensures current == old(current) && store == old(store) && calls == old(calls)
      ensures old(RunOf(Model(), l)).job.binding < |old(bindings)|
      ensures Finished(old(RunOf(Model(), l)), l, old(bindings), bindings, old(lineages), lineages, old(promises),
                       promises, store)
    {
      hide Inv, Held, SettleWaiters, Finished, Recovered;
      AnsweredRuns(Model(), l);
      CommitFinishes(Model(), l);
      StepKeepsInv(Model(), Settle(l));
      var run := lineages[l].running.value;
      var i := run.job.binding;
      if run.phase.Committed? {
        VersionIsHeldIn(Model(), run.phase.version);
        CommittedIsStored(Model(), l);
        var b := bindings[i].(record := store.versions[run.phase.version], isNew := false);
        BindingChangeKeepsInv(Model(), i, b);
        bindings := bindings[i := b];
        if !b.internal {
          SettleEach(l, run.requests, Resolved);
        }
      } else {
        RecoveredKeepsInv(Model(), l);
        Recover(l);
        if run.job.toolBatch {
          bindings := bindings[i := bindings[i].(invalid := true)];
        }
      }
      lineages := lineages[l := lineages[l].(running := None)];
    }
  }

  lemma CurrentIsBound(s: State)
    requires Inv(s)
    ensures s.current.Some? ==> HasCurrent(s)
  {
    assert s.current.Some? ==> BindingOk(s, s.bindings[s.current.value]);
  }

  lemma SettleKeepsShape(s: State, l: nat, which: set<Request>, outcome: Outcome)
    requires l < |s.lineages|
    ensures SettleWaiters(s, l, which, outcome) == s.(promises := SettleWaiters(s, l, which, outcome).promises,
                                                       lineages := SettleWaiters(s, l, which, outcome).lineages)
    ensures |SettleWaiters(s, l, which, outcome).lineages| == |s.lineages|
  {
  }
}
