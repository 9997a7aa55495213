/** electron/application/durable-execution-state-port.ts for one session: bindings, request waiters and
    commits whose store calls may fail unapplied, fail after applying, or fail with the recovery failing too.
    A step is what happens between two awaits. */
module DurableCommits {
  import opened Options

  type Request = nat
  type Owner = nat

  /** The durable session record; `body` stands for every field but these two. */
  datatype Record = Record(revision: nat, lastSeq: nat, body: nat)

  /** A binding object. Objects made by the same owner in succession share a lineage: the waiter map and
      the tail of commits. */
  datatype Binding = Binding(record: Record, isNew: bool, owner: Owner, lineage: nat, invalid: bool, internal: bool)

  datatype Job = Job(binding: nat, ticket: nat, toolBatch: bool)

  /** Where a running commit stands: at the store, answered by it, or recovering from a failure. A version
      is an index into what the store has held. */
  datatype Phase = Committing | Committed(version: nat) | Failed | Loaded(version: nat, known: set<Request>) | Unknown

  datatype Run = Run(job: Job, requests: set<Request>, first: bool, expected: Record, since: nat, phase: Phase)

  datatype Lineage = Lineage(waiters: map<Request, nat>, queue: seq<Job>, begun: nat, running: Option<Run>)

  datatype Outcome = Pending | Resolved | Rejected

  datatype Promise = Promise(lineage: nat, request: Request, outcome: Outcome)

  /** Every record the store has held, oldest first, and the requests whose user message it holds. */
  datatype Store = Store(versions: seq<Record>, stored: set<Request>)

  datatype State = State(
    bindings: seq<Binding>,
    current: Option<nat>,
    lineages: seq<Lineage>,
    promises: seq<Promise>,
    store: Store,
    calls: seq<nat>)

  const EMPTY_STATE := State([], None, [], [], Store([], {}), [])

  datatype Step =
    | Register(record: Record, isNew: bool, owner: Owner, internal: bool)
    | ApplyRecord(record: Record, owner: Owner)
    | BeginRequest(request: Request)
    | FailRequest(request: Request)
    | Forget(owner: Owner)
    | Commit(toolBatch: bool)
    | Begin(lineage: nat, prepared: bool, requests: set<Request>, nothing: bool)
    | StoreApplies(lineage: nat, lastSeq: nat, body: nat, replies: bool)
    | StoreRefuses(lineage: nat)
    | LoadAnswers(lineage: nat)
    | LoadFails(lineage: nat)
    | Settle(lineage: nat)
    | OtherWrite(lastSeq: nat, body: nat, requests: set<Request>)

  predicate Current(s: State, i: nat) {
    s.current == Some(i) && i < |s.bindings|
  }

  /** A binding that commits may still use. */
  predicate Alive(s: State, i: nat) {
    Current(s, i) && !s.bindings[i].invalid
  }

  predicate HasCurrent(s: State) {
    s.current.Some? && s.current.value < |s.bindings| && s.bindings[s.current.value].lineage < |s.lineages|
  }

  function CurrentBinding(s: State): Binding
    requires HasCurrent(s)
  {
    s.bindings[s.current.value]
  }

  predicate Held(store: Store, record: Record) {
    1 <= record.revision <= |store.versions| && store.versions[record.revision - 1] == record
  }

  predicate HasRun(s: State, l: nat) {
    && l < |s.lineages| && s.lineages[l].running.Some?
    && s.lineages[l].running.value.job.binding < |s.bindings|
  }

  function RunOf(s: State, l: nat): Run
    requires HasRun(s, l)
  {
    s.lineages[l].running.value
  }

  function WithPhase(s: State, l: nat, phase: Phase): State
    requires HasRun(s, l)
  {
    s.(lineages := s.lineages[l := s.lineages[l].(running := Some(RunOf(s, l).(phase := phase)))])
  }

  predicate Answered(s: State, run: Run) {
    match run.phase
    case Committed(version) => version < |s.store.versions|
    case Loaded(version, _) => version < |s.store.versions|
    case Unknown => true
    case _ => false
  }

  /** What the callers and the store may do: existing records and applied records come from the store. */
  predicate Enabled(s: State, step: Step) {
    match step
    case Register(record, isNew, _, _) =>
      if isNew then record.revision == 1 && record.lastSeq == 0 else Held(s.store, record)
    case ApplyRecord(record, _) => Held(s.store, record)
    case Begin(l, _, _, _) => l < |s.lineages| && s.lineages[l].running.None? && s.lineages[l].queue != []
    case StoreApplies(l, _, _, _) => HasRun(s, l) && RunOf(s, l).phase.Committing? && StoreAccepts(s.store, RunOf(s, l))
    case StoreRefuses(l) => HasRun(s, l) && RunOf(s, l).phase.Committing?
    case LoadAnswers(l) => HasRun(s, l) && RunOf(s, l).phase.Failed? && s.store.versions != []
    case LoadFails(l) => HasRun(s, l) && RunOf(s, l).phase.Failed?
    case Settle(l) => HasRun(s, l) && Answered(s, RunOf(s, l))
    case OtherWrite(_, _, _) => s.store.versions != []
    case _ => true
  }

  /** The store inserts a session it does not have, and else compares revision and last number. */
  predicate StoreAccepts(store: Store, run: Run) {
    if run.first then store.versions == []
    else
      && store.versions != []
      && var last := store.versions[|store.versions| - 1];
         last.revision == run.expected.revision && last.lastSeq == run.expected.lastSeq
  }

  function Write(store: Store, lastSeq: nat, body: nat, requests: set<Request>): Store {
    Store(store.versions + [Record(|store.versions| + 1, lastSeq, body)], store.stored + requests)
  }

  predicate IsWaiting(p: Promise, l: nat, which: set<Request>) {
    p.lineage == l && p.outcome.Pending? && p.request in which
  }

  /** Settles the waiters of a lineage for the given requests and takes them off the map. */
  function SettleWaiters(s: State, l: nat, which: set<Request>, outcome: Outcome): State
    requires l < |s.lineages|
  {
    s.(promises := seq(|s.promises|, i requires 0 <= i < |s.promises| =>
                       if IsWaiting(s.promises[i], l, which) then s.promises[i].(outcome := outcome)
                           else s.promises[i]),
       lineages := s.lineages[l := s.lineages[l].(waiters := s.lineages[l].waiters - which)])
  }

  function WithBinding(s: State, i: nat, b: Binding): State
    requires i < |s.bindings|
  {
    s.(bindings := s.bindings[i := b])
  }

  function Registered(s: State, record: Record, isNew: bool, owner: Owner, internal: bool): State {
    if HasCurrent(s) then
      if CurrentBinding(s).owner != owner then s
      else
        s.(bindings := s.bindings + [Binding(record, isNew, owner, CurrentBinding(s).lineage, false, internal)],
           current := Some(|s.bindings|))
    else
      s.(bindings := s.bindings + [Binding(record, isNew, owner, |s.lineages|, false, internal)],
          current := Some(|s.bindings|), lineages := s.lineages + [Lineage(map[], [], 0, None)])
  }

  function Forgotten(s: State, owner: Owner): State {
    if HasCurrent(s) && CurrentBinding(s).owner == owner then
      var l := CurrentBinding(s).lineage;
      SettleWaiters(s, l, s.lineages[l].waiters.Keys, Rejected).(current := None)
    else s
  }

  /** The head of the tail starts: it goes on only with the binding it was called on, still current and valid. */
  function Begun(s: State, l: nat, prepared: bool, requests: set<Request>, nothing: bool): State
    requires l < |s.lineages| && s.lineages[l].queue != []
  {
    var job := s.lineages[l].queue[0];
    var popped := s.lineages[l].(queue := s.lineages[l].queue[1..], begun := s.lineages[l].begun + 1);
    if !Alive(s, job.binding) || !prepared || (nothing && !s.bindings[job.binding].isNew) then
      s.(lineages := s.lineages[l := popped])
    else
      var b := s.bindings[job.binding];
      var run := Run(job, requests, b.isNew, b.record, |s.store.versions|, Committing);
      s.(lineages := s.lineages[l := popped.(running := Some(run))], calls := s.calls + [job.binding])
  }

  /** #recoverAfterFailure, and the catch branch of an internal commit. */
  function Recovered(s: State, l: nat): State
    requires HasRun(s, l) && Answered(s, RunOf(s, l))
  {
    var run := RunOf(s, l);
    var i := run.job.binding;
    var b := s.bindings[i];
    if run.phase.Loaded? then
      var restored := WithBinding(s, i, b.(record := s.store.versions[run.phase.version], isNew := false));
      if b.internal then restored else SettleWaiters(restored, l, run.requests - run.phase.known, Rejected)
    else if b.internal then WithBinding(s, i, b.(invalid := true))
    else if b.isNew then SettleWaiters(s, l, run.requests, Rejected)
    else SettleWaiters(WithBinding(s, i, b.(invalid := true)), l, s.lineages[l].waiters.Keys, Rejected)
  }

  function SettledCommit(s: State, l: nat): State
    requires HasRun(s, l) && Answered(s, RunOf(s, l))
  {
    var run := RunOf(s, l);
    var i := run.job.binding;
    if run.phase.Committed? then
      var confirmed := WithBinding(s, i, s.bindings[i].(record := s.store.versions[run.phase.version], isNew := false));
      if s.bindings[i].internal then confirmed else SettleWaiters(confirmed, l, run.requests, Resolved)
    else
      var recovered := Recovered(s, l);
      if run.job.toolBatch then WithBinding(recovered, i, recovered.bindings[i].(invalid := true)) else recovered
  }

  function Apply(s: State, step: Step): State
    requires Enabled(s, step)
  {
    match step
    case Register(record, isNew, owner, internal) => Registered(s, record, isNew, owner, internal)
    case ApplyRecord(record, owner) =>
      if HasCurrent(s) && CurrentBinding(s).owner == owner && !CurrentBinding(s).invalid then
        WithBinding(s, s.current.value, CurrentBinding(s).(record := record, isNew := false))
      else s
    case BeginRequest(request) =>
      if HasCurrent(s) && !CurrentBinding(s).invalid && request !in s.lineages[CurrentBinding(s).lineage].waiters then
        var l := CurrentBinding(s).lineage;
        s.(promises := s.promises + [Promise(l, request, Pending)],
           lineages := s.lineages[l := s.lineages[l].(waiters := s.lineages[l].waiters[request := |s.promises|])])
      else s
    case FailRequest(request) =>
      if HasCurrent(s) then SettleWaiters(s, CurrentBinding(s).lineage, {request}, Rejected) else s
    case Forget(owner) => Forgotten(s, owner)
    case Commit(toolBatch) =>
      if HasCurrent(s) && !CurrentBinding(s).invalid then
        var l := CurrentBinding(s).lineage;
        var job := Job(s.current.value, s.lineages[l].begun + |s.lineages[l].queue|, toolBatch);
        s.(lineages := s.lineages[l := s.lineages[l].(queue := s.lineages[l].queue + [job])])
      else s
    case Begin(l, prepared, requests, nothing) => Begun(s, l, prepared, requests, nothing)
    case StoreApplies(l, lastSeq, body, replies) =>
      WithPhase(s, l, if replies then Committed(|s.store.versions|) else Failed)
        .(store := Write(s.store, lastSeq, body, RunOf(s, l).requests))
    case StoreRefuses(l) => WithPhase(s, l, Failed)
    case LoadAnswers(l) => WithPhase(s, l, Loaded(|s.store.versions| - 1, RunOf(s, l).requests * s.store.stored))
    case LoadFails(l) => WithPhase(s, l, Unknown)
    case Settle(l) =>
      var settled := SettledCommit(s, l);
      settled.(lineages := settled.lineages[l := settled.lineages[l].(running := None)])
    case OtherWrite(lastSeq, body, requests) => s.(store := Write(s.store, lastSeq, body, requests))
  }

  /** The revisions count the versions. */
  ghost predicate StoreOk(store: Store) {
    forall i :: 0 <= i < |store.versions| ==> store.versions[i].revision == i + 1
  }

  ghost predicate BindingsOk(s: State) {
    && (s.current.Some? ==> s.current.value < |s.bindings|)
    && forall i :: 0 <= i < |s.bindings| ==> BindingOk(s, s.bindings[i])
  }

  /** A binding that is not new holds a record the store has held. */
  ghost predicate BindingOk(s: State, b: Binding) {
    b.lineage < |s.lineages| && (!b.isNew ==> Held(s.store, b.record))
  }

  ghost predicate LineagesOk(s: State) {
    forall l :: 0 <= l < |s.lineages| ==> QueueOk(s, l) && RunOk(s, l)
  }

  /** The commits of a lineage start in the order of their calls, and none is skipped. */
  ghost predicate QueueOk(s: State, l: nat)
    requires l < |s.lineages|
  {
    var line := s.lineages[l];
    && (forall k :: 0 <= k < |line.queue| ==> JobOk(s, l, line.queue[k]) && line.queue[k].ticket == line.begun + k)
    && (line.running.Some? ==> JobOk(s, l, line.running.value.job) && line.running.value.job.ticket + 1 == line.begun)
  }

  ghost predicate JobOk(s: State, l: nat, job: Job) {
    job.binding < |s.bindings| && s.bindings[job.binding].lineage == l
  }

  /** What a run was told by the store, it was told since it began, and it is true. */
  ghost predicate RunOk(s: State, l: nat)
    requires l < |s.lineages|
  {
    s.lineages[l].running.Some? ==>
      var run := s.lineages[l].running.value;
      && run.since <= |s.store.versions|
      && (!run.first ==> Held(s.store, run.expected))
      && match run.phase
         case Committed(version) => run.since <= version < |s.store.versions| && run.requests <= s.store.stored
         case Loaded(version, known) => run.since <= version + 1 <= |s.store.versions| && known <= s.store.stored
         case _ => true
  }

  /** A waiter is pending exactly while it is on the map of its lineage, which is the current one. */
  ghost predicate PromisesOk(s: State) {
    && (forall i :: 0 <= i < |s.promises| ==> PromiseOk(s, i))
    && (forall l :: 0 <= l < |s.lineages| ==> WaitersOk(s, l))
  }

  ghost predicate PromiseOk(s: State, i: nat)
    requires i < |s.promises|
  {
    var p := s.promises[i];
    && p.lineage < |s.lineages|
    && (p.outcome.Pending? ==>
          p.request in s.lineages[p.lineage].waiters && s.lineages[p.lineage].waiters[p.request] == i)
    && (p.outcome.Resolved? ==> p.request in s.store.stored)
  }

  ghost predicate WaitersOk(s: State, l: nat)
    requires l < |s.lineages|
  {
    && (forall r :: r in s.lineages[l].waiters ==>
          s.lineages[l].waiters[r] < |s.promises| && s.promises[s.lineages[l].waiters[r]] == Promise(l, r, Pending))
    && (s.lineages[l].waiters != map[] ==>
        s.current.Some? && s.current.value < |s.bindings| && s.bindings[s.current.value].lineage == l)
  }

  ghost predicate Inv(s: State) {
    StoreOk(s.store) && BindingsOk(s) && LineagesOk(s) && PromisesOk(s)
  }

  /** A binding may change, as long as its lineage stays and what it holds is held. */
  lemma BindingChangeKeepsInv(s: State, i: nat, b: Binding)
    requires Inv(s) && i < |s.bindings| && b.lineage == s.bindings[i].lineage && (!b.isNew ==> Held(s.store, b.record))
    ensures Inv(WithBinding(s, i, b))
  {
    hide Held;
    var t := WithBinding(s, i, b);
    forall l | 0 <= l < |t.lineages| ensures QueueOk(t, l) && RunOk(t, l) && WaitersOk(t, l) {
      assert QueueOk(s, l) && RunOk(s, l) && WaitersOk(s, l);
    }
    forall k | 0 <= k < |t.promises| ensures PromiseOk(t, k) {
      assert PromiseOk(s, k);
    }
  }

  /** Settling waiters keeps promises and map together; resolving asks that the requests be stored. */
  lemma SettleWaitersKeepsInv(s: State, l: nat, which: set<Request>, outcome: Outcome)
    requires Inv(s) && l < |s.lineages| && !outcome.Pending?
    requires outcome.Resolved? ==> which <= s.store.stored
    ensures Inv(SettleWaiters(s, l, which, outcome))
  {
    hide Held;
    var t := SettleWaiters(s, l, which, outcome);
    forall k | 0 <= k < |t.lineages| ensures QueueOk(t, k) && RunOk(t, k) {
      assert QueueOk(s, k) && RunOk(s, k);
    }
    forall i | 0 <= i < |t.promises| ensures PromiseOk(t, i) {
      assert PromiseOk(s, i);
    }
    forall k | 0 <= k < |t.lineages| ensures WaitersOk(t, k) {
      assert WaitersOk(s, k);
    }
  }

  /** The store only grows, and so all that was held is held. */
  lemma WriteKeepsInv(s: State, lastSeq: nat, body: nat, requests: set<Request>)
    requires Inv(s)
    ensures Inv(s.(store := Write(s.store, lastSeq, body, requests)))
  {
    var t := s.(store := Write(s.store, lastSeq, body, requests));
    forall i | 0 <= i < |t.bindings| ensures BindingOk(t, t.bindings[i]) {
      assert BindingOk(s, s.bindings[i]);
    }
    forall l | 0 <= l < |t.lineages| ensures QueueOk(t, l) && RunOk(t, l) && WaitersOk(t, l) {
      assert QueueOk(s, l) && RunOk(s, l) && WaitersOk(s, l);
    }
    forall i | 0 <= i < |t.promises| ensures PromiseOk(t, i) {
      assert PromiseOk(s, i);
    }
  }

  /** A lineage may change its queue and its run, if both stay in order. */
  lemma LineageChangeKeepsInv(s: State, l: nat, line: Lineage, calls: seq<nat>)
    requires Inv(s) && l < |s.lineages| && line.waiters == s.lineages[l].waiters
    requires QueueOk(s.(lineages := s.lineages[l := line]), l) && RunOk(s.(lineages := s.lineages[l := line]), l)
    ensures Inv(s.(lineages := s.lineages[l := line], calls := calls))
  {
    hide Held;
    var u := s.(lineages := s.lineages[l := line]);
    var t := u.(calls := calls);
    forall k | 0 <= k < |t.lineages| ensures QueueOk(t, k) && RunOk(t, k) && WaitersOk(t, k) {
      if k == l {
        assert QueueOk(u, l) && RunOk(u, l);
      } else {
        assert QueueOk(s, k) && RunOk(s, k);
      }
      assert WaitersOk(s, k);
    }
    forall i | 0 <= i < |t.promises| ensures PromiseOk(t, i) {
      assert PromiseOk(s, i);
    }
    forall i | 0 <= i < |t.bindings| ensures BindingOk(t, t.bindings[i]) {
      assert BindingOk(s, s.bindings[i]);
    }
  }

  lemma RegisterKeepsInv(s: State, step: Step)
    requires Inv(s) && step.Register? && Enabled(s, step)
    ensures Inv(Apply(s, step))
  {
    hide Held;
    var t := Apply(s, step);
    forall i | 0 <= i < |t.bindings| ensures BindingOk(t, t.bindings[i]) {
      assert i < |s.bindings| ==> BindingOk(s, s.bindings[i]);
    }
    if HasCurrent(s) {
      assert BindingOk(s, CurrentBinding(s));
    }
    forall l | 0 <= l < |t.lineages| ensures QueueOk(t, l) && RunOk(t, l) && WaitersOk(t, l) {
      assert l < |s.lineages| ==> QueueOk(s, l) && RunOk(s, l) && WaitersOk(s, l);
    }
    forall i | 0 <= i < |t.promises| ensures PromiseOk(t, i) {
      assert PromiseOk(s, i);
    }
  }

  lemma BeginRequestKeepsInv(s: State, request: Request)
    requires Inv(s)
    ensures Inv(Apply(s, BeginRequest(request)))
  {
    hide Held;
    var t := Apply(s, BeginRequest(request));
    forall i | 0 <= i < |t.bindings| ensures BindingOk(t, t.bindings[i]) {
      assert BindingOk(s, s.bindings[i]);
    }
    forall l | 0 <= l < |t.lineages| ensures QueueOk(t, l) && RunOk(t, l) && WaitersOk(t, l) {
      assert QueueOk(s, l) && RunOk(s, l) && WaitersOk(s, l);
    }
    forall i | 0 <= i < |t.promises| ensures PromiseOk(t, i) {
      assert i < |s.promises| ==> PromiseOk(s, i);
    }
  }

  /** Once every waiter of the current lineage is settled, nobody misses the binding. */
  lemma ForgetKeepsInv(s: State, owner: Owner)
    requires Inv(s)
    ensures Inv(Apply(s, Forget(owner)))
  {
    if HasCurrent(s) && CurrentBinding(s).owner == owner {
      var l := CurrentBinding(s).lineage;
      var settled := SettleWaiters(s, l, s.lineages[l].waiters.Keys, Rejected);
      SettleWaitersKeepsInv(s, l, s.lineages[l].waiters.Keys, Rejected);
      assert settled.lineages[l].waiters == map[];
      var t := settled.(current := None);
      hide Held, SettleWaiters;
      forall k | 0 <= k < |t.lineages| ensures QueueOk(t, k) && RunOk(t, k) && WaitersOk(t, k) {
        assert QueueOk(settled, k) && RunOk(settled, k) && WaitersOk(settled, k);
      }
      forall i | 0 <= i < |t.promises| ensures PromiseOk(t, i) {
        assert PromiseOk(settled, i);
      }
    }
  }

  lemma CommitKeepsInv(s: State, toolBatch: bool)
    requires Inv(s)
    ensures Inv(Apply(s, Commit(toolBatch)))
  {
    if HasCurrent(s) && !CurrentBinding(s).invalid {
      var l := CurrentBinding(s).lineage;
      var job := Job(s.current.value, s.lineages[l].begun + |s.lineages[l].queue|, toolBatch);
      var line := s.lineages[l].(queue := s.lineages[l].queue + [job]);
      assert QueueOk(s, l) && RunOk(s, l);
      hide Held;
      LineageChangeKeepsInv(s, l, line, s.calls);
    }
  }

  lemma BeginKeepsInv(s: State, step: Step)
    requires Inv(s) && step.Begin? && Enabled(s, step)
    ensures Inv(Apply(s, step))
  {
    var l := step.lineage;
    var t := Apply(s, step);
    assert QueueOk(s, l) && RunOk(s, l);
    var job := s.lineages[l].queue[0];
    assert BindingOk(s, s.bindings[job.binding]);
    hide Held;
    LineageChangeKeepsInv(s, l, t.lineages[l], t.calls);
  }

  lemma PhaseKeepsInv(s: State, l: nat, phase: Phase)
    requires Inv(s) && HasRun(s, l)
    requires RunOk(WithPhase(s, l, phase), l)
    ensures Inv(WithPhase(s, l, phase))
  {
    assert QueueOk(s, l) && RunOk(s, l);
    hide Held;
    LineageChangeKeepsInv(s, l, s.lineages[l].(running := Some(RunOf(s, l).(phase := phase))), s.calls);
  }

  lemma StoreStepKeepsInv(s: State, step: Step)
    requires Inv(s) && Enabled(s, step)
    requires step.StoreApplies? || step.StoreRefuses? || step.LoadAnswers? || step.LoadFails?
    ensures Inv(Apply(s, step))
  {
    var l := step.lineage;
    assert RunOk(s, l);
    if step.StoreApplies? {
      var run := RunOf(s, l);
      var written := s.(store := Write(s.store, step.lastSeq, step.body, run.requests));
      WriteKeepsInv(s, step.lastSeq, step.body, run.requests);
      assert RunOk(written, l);
      PhaseKeepsInv(written, l, if step.replies then Committed(|s.store.versions|) else Failed);
    } else {
      PhaseKeepsInv(s, l, RunOf(Apply(s, step), l).phase);
    }
  }

  /** What the store held once is held. */
  lemma VersionIsHeld(store: Store, version: nat)
    requires StoreOk(store) && version < |store.versions|
    ensures Held(store, store.versions[version])
  {
  }

  lemma RecoveredKeepsInv(s: State, l: nat)
    requires Inv(s) && HasRun(s, l) && Answered(s, RunOf(s, l))
    ensures Inv(Recovered(s, l)) && |Recovered(s, l).bindings| == |s.bindings| && Recovered(s, l).store == s.store
    ensures |Recovered(s, l).lineages| == |s.lineages| && Recovered(s, l).lineages[l].running == s.lineages[l].running
  {
    var run := RunOf(s, l);
    var i := run.job.binding;
    var b := s.bindings[i];
    assert RunOk(s, l) && BindingOk(s, b);
    hide Inv, Held;
    if run.phase.Loaded? {
      VersionIsHeldIn(s, run.phase.version);
      var restored := b.(record := s.store.versions[run.phase.version], isNew := false);
      BindingChangeKeepsInv(s, i, restored);
      SettleWaitersKeepsInv(WithBinding(s, i, restored), l, run.requests - run.phase.known, Rejected);
    } else {
      BindingChangeKeepsInv(s, i, b.(invalid := true));
      SettleWaitersKeepsInv(s, l, run.requests, Rejected);
      SettleWaitersKeepsInv(WithBinding(s, i, b.(invalid := true)), l, s.lineages[l].waiters.Keys, Rejected);
    }
  }

  lemma VersionIsHeldIn(s: State, version: nat)
    requires Inv(s) && version < |s.store.versions|
    ensures Held(s.store, s.store.versions[version])
  {
    hide BindingsOk, LineagesOk, PromisesOk;
    VersionIsHeld(s.store, version);
  }

  lemma SettledCommitKeepsInv(s: State, l: nat)
    requires Inv(s) && HasRun(s, l) && Answered(s, RunOf(s, l))
    ensures Inv(SettledCommit(s, l))
    ensures |SettledCommit(s, l).lineages| == |s.lineages|
  {
    var run := RunOf(s, l);
    var i := run.job.binding;
    assert RunOk(s, l);
    hide Inv, Held, Recovered;
    if run.phase.Committed? {
      var b := s.bindings[i].(record := s.store.versions[run.phase.version], isNew := false);
      VersionIsHeldIn(s, run.phase.version);
      BindingChangeKeepsInv(s, i, b);
      SettleWaitersKeepsInv(WithBinding(s, i, b), l, run.requests, Resolved);
    } else {
      var recovered := Recovered(s, l);
      RecoveredKeepsInv(s, l);
      if run.job.toolBatch {
        HeldByBinding(recovered, i);
        BindingChangeKeepsInv(recovered, i, recovered.bindings[i].(invalid := true));
      }
    }
  }

  lemma HeldByBinding(s: State, i: nat)
    requires Inv(s) && i < |s.bindings|
    ensures !s.bindings[i].isNew ==> Held(s.store, s.bindings[i].record)
  {
    assert BindingOk(s, s.bindings[i]);
  }

  lemma SettleKeepsInv(s: State, l: nat)
    requires Inv(s) && Enabled(s, Settle(l))
    ensures Inv(Apply(s, Settle(l)))
  {
    var settled := SettledCommit(s, l);
    SettledCommitKeepsInv(s, l);
    assert QueueOk(settled, l);
    hide Held, SettledCommit;
    LineageChangeKeepsInv(settled, l, settled.lineages[l].(running := None), settled.calls);
  }

  lemma ApplyRecordKeepsInv(s: State, record: Record, owner: Owner)
    requires Inv(s) && Enabled(s, ApplyRecord(record, owner))
    ensures Inv(Apply(s, ApplyRecord(record, owner)))
  {
    hide Inv, Held;
    if HasCurrent(s) && CurrentBinding(s).owner == owner && !CurrentBinding(s).invalid {
      BindingChangeKeepsInv(s, s.current.value, CurrentBinding(s).(record := record, isNew := false));
    }
  }

  /** Every step of callers, commits and store keeps the invariant. */
  lemma StepKeepsInv(s: State, step: Step)
    requires Inv(s) && Enabled(s, step)
    ensures Inv(Apply(s, step))
  {
    match step
    case Register(_, _, _, _) => RegisterKeepsInv(s, step);
    case ApplyRecord(record, owner) => ApplyRecordKeepsInv(s, record, owner);
    case BeginRequest(request) => BeginRequestKeepsInv(s, request);
    case FailRequest(request) =>
      hide Inv;
      if HasCurrent(s) {
        SettleWaitersKeepsInv(s, CurrentBinding(s).lineage, {request}, Rejected);
      }
    case Forget(owner) => ForgetKeepsInv(s, owner);
    case Commit(toolBatch) => CommitKeepsInv(s, toolBatch);
    case Begin(_, _, _, _) => BeginKeepsInv(s, step);
    case Settle(l) => SettleKeepsInv(s, l);
    case OtherWrite(lastSeq, body, requests) => WriteKeepsInv(s, lastSeq, body, requests);
    case _ => StoreStepKeepsInv(s, step);
  }
}
