/** The config file and the secrets file under updates, failing writes and crashes at any point between
    two writes: electron/config/store.ts with electron/config/secret-store.ts. */
module CredentialStore {
  import opened Options
  import opened CredentialConfig

  /** Where an update stands: which write comes next. */
  datatype Phase = Idle | Writing(plan: Plan) | Removing(ref: Ref)

  datatype State = State(
    config: Config,
    savedConfig: Config,
    records: set<Ref>,
    savedRecords: set<Ref>,
    issued: nat,
    phase: Phase)

  /** A write of the config file: the file is renamed into place first and its mode is set after, so a
      failed write may have been applied. */
  datatype Outcome = Written | NotWritten | WrittenThenFailed

  datatype Step =
    | Start(request: Request, stored: bool)
    | WriteConfig(outcome: Outcome)
    | Remove(saved: bool)
    | Reencrypt(ref: Ref, saved: bool)
    | Crash

  predicate Enabled(s: State, step: Step) {
    match step
    case Start(_, _) => s.phase.Idle? && s.config.providers != []
    case WriteConfig(_) => s.phase.Writing? && s.phase.plan.Plan?
    case Remove(_) => s.phase.Removing?
    case Reencrypt(ref, _) => ref < s.issued
    case Crash => true
  }

  /** `#persist` writes all records held in memory, or fails and leaves the file. */
  function Persist(s: State, saved: bool): State {
    if saved then s.(savedRecords := s.records) else s
  }

  function RemoveNext(s: State, ref: Option<Ref>): State {
    s.(phase := if ref.Some? then Removing(ref.value) else Idle)
  }

  function Apply(s: State, step: Step): State
    requires Enabled(s, step)
  {
    match step
    case Start(request, stored) =>
      var plan := Prepare(s.config, request, s.issued);
      if plan.Refused? then s
      else if plan.added.None? then s.(phase := Writing(plan))
      else
        var held := Persist(s.(records := s.records + {plan.added.value}, issued := s.issued + 1), stored);
        if stored then held.(phase := Writing(plan)) else held
    case WriteConfig(outcome) =>
      var plan := s.phase.plan;
      (match outcome
       case Written => RemoveNext(s.(config := plan.next, savedConfig := plan.next), plan.dropped)
       case NotWritten => RemoveNext(s, plan.added)
       case WrittenThenFailed => RemoveNext(s.(savedConfig := plan.next), plan.added))
    case Remove(saved) =>
      var idle := s.(phase := Idle);
      if s.phase.ref in s.records then Persist(idle.(records := s.records - {s.phase.ref}), saved) else idle
    case Reencrypt(ref, saved) => Persist(s.(records := s.records + {ref}), saved)
    case Crash => s.(config := s.savedConfig, records := s.savedRecords, phase := Idle)
  }

  /** A crash leaves what the files hold and nothing under way; a record read under an older encryption is stored
      again with all the others. */
  lemma CrashExactly(s: State, ref: Ref, saved: bool)
    ensures Apply(s, Crash) == State(s.savedConfig, s.savedConfig, s.savedRecords, s.savedRecords, s.issued, Idle)
    ensures Enabled(s, Reencrypt(ref, saved)) ==>
              Apply(s, Reencrypt(ref, saved)) ==
                s.(records := s.records + {ref},
                   savedRecords := if saved then s.records + {ref} else s.savedRecords)
  {
  }

  ghost predicate Backed(c: Config, records: set<Ref>) {
    forall r: Ref :: Holds(c, r) ==> r in records
  }

  ghost predicate Issued(c: Config, issued: nat) {
    forall r: Ref :: Holds(c, r) ==> r < issued
  }

  ghost predicate Within(c: Config, d: Config) {
    forall r: Ref :: Holds(c, r) ==> Holds(d, r)
  }

  ghost predicate PhaseOk(s: State) {
    match s.phase
    case Idle => true
    case Writing(plan) =>
      && plan.Plan? && Sound(plan.next) && Issued(plan.next, s.issued)
      && Backed(plan.next, s.records) && Backed(plan.next, s.savedRecords)
      && (plan.added.Some? ==> !Holds(s.config, plan.added.value) && plan.added.value < s.issued)
      && (plan.added.None? ==> Within(plan.next, s.config))
      && (plan.dropped.Some? ==> !Holds(plan.next, plan.dropped.value) && plan.dropped.value < s.issued)
    case Removing(ref) => !Holds(s.config, ref) && ref < s.issued
  }

  ghost predicate Inv(s: State) {
    && Sound(s.savedConfig) && Within(s.savedConfig, s.config)
    && Sound(s.config) && Issued(s.config, s.issued)
    && Backed(s.config, s.records) && Backed(s.config, s.savedRecords)
    && PhaseOk(s)
  }

  lemma StartKeepsInv(s: State, step: Step)
    requires Inv(s) && step.Start? && Enabled(s, step)
    ensures Inv(Apply(s, step))
  {
    hide Prepare, Sound, Holds;
    assert !Holds(s.config, s.issued);
    EveryPlanFits(s.config, step.request, s.issued);
  }

  /** The config write that gives a secret its holder is reported as failed although it was applied. */
  predicate LateFailure(s: State, step: Step) {
    step == WriteConfig(WrittenThenFailed) && s.phase.Writing? && s.phase.plan.Plan? && s.phase.plan.added.Some?
  }

  lemma StepKeepsInv(s: State, step: Step)
    requires Inv(s) && Enabled(s, step) && !LateFailure(s, step)
    ensures Inv(Apply(s, step))
  {
    if step.Start? {
      StartKeepsInv(s, step);
    }
    hide Sound, Holds, Prepare;
  }

  ghost predicate WritingFits(s: State) {
    s.phase.Writing? && s.phase.plan.Plan? ==>
      && (forall r: Ref :: Holds(s.config, r) ==> Holds(s.phase.plan.next, r) || s.phase.plan.dropped == Some(r))
      && (s.phase.plan.added.Some? ==> Holds(s.phase.plan.next, s.phase.plan.added.value))
  }

  /** After a config write and the removal that follows it: a saved reference has no record in memory exactly if
      the write was of a new secret's holder, was applied, and was reported as failed; it has none on disk exactly
      if moreover the removal has been saved. */
  lemma DanglesExactlyAfterLateFailure(s: State, outcome: Outcome, saved: bool)
    requires Inv(s) && Enabled(s, WriteConfig(outcome)) && WritingFits(s)
    requires Enabled(Apply(s, WriteConfig(outcome)), Remove(saved))
    ensures var t := Apply(Apply(s, WriteConfig(outcome)), Remove(saved));
            && (Backed(t.savedConfig, t.records) <==> !LateFailure(s, WriteConfig(outcome)))
            && (Backed(t.savedConfig, t.savedRecords) <==> !(LateFailure(s, WriteConfig(outcome)) && saved))
  {
    var t := Apply(Apply(s, WriteConfig(outcome)), Remove(saved));
    if !LateFailure(s, WriteConfig(outcome)) {
      StepKeepsInv(s, WriteConfig(outcome));
      StepKeepsInv(Apply(s, WriteConfig(outcome)), Remove(saved));
    } else {
      var added := s.phase.plan.added.value;
      assert Holds(t.savedConfig, added) && added !in t.records;
    }
    hide Sound, Holds;
  }

  /** A removal that was not saved only delays it: the next time the records are saved for any other secret, the
      saved reference is left without its own. */
  lemma UnsavedRemovalDanglesLater(s: State, ref: Ref)
    requires Inv(s) && Enabled(s, WriteConfig(WrittenThenFailed)) && WritingFits(s)
    requires LateFailure(s, WriteConfig(WrittenThenFailed))
    requires ref < s.issued && s.phase.plan.added != Some(ref)
    ensures var t := Apply(Apply(Apply(s, WriteConfig(WrittenThenFailed)), Remove(false)), Reencrypt(ref, true));
            !Backed(t.savedConfig, t.savedRecords)
  {
    var t := Apply(Apply(Apply(s, WriteConfig(WrittenThenFailed)), Remove(false)), Reencrypt(ref, true));
    assert Holds(t.savedConfig, s.phase.plan.added.value);
    hide Sound, Holds;
  }

  /** One provider without a key, nothing stored. */
  const BARE := Config([Provider(1, 1, 0, None)], 1, None)

  /** A concrete run to such a failure, and what it leaves: the search key is set, its config write is applied and
      reported as failed, the new secret is removed, and the config on disk names a record that is not there. */
  lemma LateFailureHappens()
    ensures var keyed := Apply(Settled(BARE, {}, 0), Start(SetWebSearchCredential, true));
            && Inv(Settled(BARE, {}, 0)) && Enabled(Settled(BARE, {}, 0), Start(SetWebSearchCredential, true))
            && Enabled(keyed, WriteConfig(WrittenThenFailed)) && LateFailure(keyed, WriteConfig(WrittenThenFailed))
            && Enabled(Apply(keyed, WriteConfig(WrittenThenFailed)), Remove(true))
            && var t := Apply(Apply(keyed, WriteConfig(WrittenThenFailed)), Remove(true));
               Holds(t.savedConfig, 0) && 0 !in t.savedRecords
  {
  }

  /** A run in which no such write happens. */
  ghost predicate Run(s: State, steps: seq<Step>)
    decreases |steps|
  {
    steps == [] || (Enabled(s, steps[0]) && !LateFailure(s, steps[0]) && Run(Apply(s, steps[0]), steps[1..]))
  }

  ghost function After(s: State, steps: seq<Step>): State
    requires Run(s, steps)
    decreases |steps|
  {
    if steps == [] then s else After(Apply(s, steps[0]), steps[1..])
  }

  lemma {:induction false} RunsKeepInv(s: State, steps: seq<Step>)
    requires Inv(s) && Run(s, steps)
    ensures Inv(After(s, steps))
    decreases |steps|
  {
    hide Inv, Apply, Enabled, LateFailure;
    if steps != [] {
      StepKeepsInv(s, steps[0]);
      RunsKeepInv(Apply(s, steps[0]), steps[1..]);
    }
  }

  /** Two files in accord, and nothing under way. */
  function Settled(c: Config, records: set<Ref>, issued: nat): State {
    State(c, c, records, records, issued, Idle)
  }

  /** Wherever a run stands, crashes and failed writes included: every reference in the saved config names
      a saved record, is held in memory too, and has one holder only. */
  lemma NoDanglingReference(c: Config, records: set<Ref>, issued: nat, steps: seq<Step>, r: Ref)
    requires Sound(c) && Backed(c, records) && Issued(c, issued)
    requires Run(Settled(c, records, issued), steps)
    ensures Holds(After(Settled(c, records, issued), steps).savedConfig, r) ==>
              r in After(Settled(c, records, issued), steps).savedRecords &&
                  r in After(Settled(c, records, issued), steps).records
    ensures NoSharing(After(Settled(c, records, issued), steps).savedConfig)
    ensures Holds(After(Settled(c, records, issued), steps).savedConfig, r) ==>
        Holds(After(Settled(c, records, issued), steps).config, r)
  {
    RunsKeepInv(Settled(c, records, issued), steps);
  }

  /** Every write succeeds, and nothing else disturbs the update. */
  predicate Undisturbed(step: Step) {
    match step
    case Start(_, stored) => stored
    case WriteConfig(outcome) => outcome.Written?
    case Remove(saved) => saved
    case _ => false
  }

  /** No record without a holder: at rest the records are just the references held. */
  ghost predicate Tight(s: State) {
    && s.records == s.savedRecords && s.config == s.savedConfig
    && forall r: Ref :: r in s.records ==>
         || Holds(s.config, r)
         || (s.phase.Writing? && s.phase.plan.Plan? && s.phase.plan.added == Some(r))
         || s.phase == Removing(r)
  }

  /** Without failures no secret is left behind: each update deletes what it replaced. */
  lemma UndisturbedStepsLeaveNothing(s: State, step: Step)
    requires Inv(s) && Tight(s) && WritingFits(s) && Enabled(s, step) && Undisturbed(step)
    ensures Tight(Apply(s, step)) && WritingFits(Apply(s, step))
  {
    if step.Start? {
      assert !Holds(s.config, s.issued);
      EveryPlanFits(s.config, step.request, s.issued);
    }
    hide Prepare, Sound, Holds;
  }

  predicate AllUndisturbed(steps: seq<Step>) {
    forall i :: 0 <= i < |steps| ==> Undisturbed(steps[i])
  }

  lemma {:induction false} UndisturbedRunsLeaveNothing(s: State, steps: seq<Step>)
    requires Inv(s) && Tight(s) && WritingFits(s) && Run(s, steps) && AllUndisturbed(steps)
    ensures Inv(After(s, steps)) && Tight(After(s, steps)) && WritingFits(After(s, steps))
    decreases |steps|
  {
    if steps != [] {
      assert Undisturbed(steps[0]) && AllUndisturbed(steps[1..]);
      hide Inv, Apply, Enabled, Tight, WritingFits, AllUndisturbed, Undisturbed;
      StepKeepsInv(s, steps[0]);
      UndisturbedStepsLeaveNothing(s, steps[0]);
      UndisturbedRunsLeaveNothing(Apply(s, steps[0]), steps[1..]);
    }
  }

  /** After updates whose writes all succeed, the secrets saved are exactly those the saved config names. */
  lemma SecretsAreThoseNamed(c: Config, records: set<Ref>, issued: nat, steps: seq<Step>, r: Ref)
    requires Sound(c) && (forall q: Ref :: Holds(c, q) <==> q in records) && Issued(c, issued)
    requires Run(Settled(c, records, issued), steps) && AllUndisturbed(steps)
    requires After(Settled(c, records, issued), steps).phase.Idle?
    ensures r in After(Settled(c, records, issued), steps).savedRecords <==>
        Holds(After(Settled(c, records, issued), steps).savedConfig, r)
  {
    UndisturbedRunsLeaveNothing(Settled(c, records, issued), steps);
  }
}
