/** `SecretStore` and the credential side of `ConfigStore.update`: the two objects whose files the crash
    model is about. The outcome of each write is a parameter. */
module CredentialFiles {
  import opened Options
  import opened CredentialConfig
  import opened CredentialStore

  class SecretStore {
    var records: set<Ref>
    var saved: set<Ref>
    var issued: nat

    constructor (initial: set<Ref>, bound: nat)
      ensures records == initial && saved == initial && issued == bound
    {
      records, saved, issued := initial, initial, bound;
    }

    method Persist(written: bool)
      modifies this`saved
      ensures saved == if written then records else old(saved)
    {
      if written {
        saved := records;
      }
    }

    /** Stores a secret under a reference never given before. */
    method Set(written: bool) returns (ref: Ref)
      modifies this
      ensures ref == old(issued) && issued == old(issued) + 1
      ensures records == old(records) + {ref} && saved == if written then records else old(saved)
    {
      ref := issued;
      issued := issued + 1;
      records := records + {ref};
      Persist(written);
    }

    method Delete(ref: Option<Ref>, written: bool)
      modifies this`records, this`saved
      ensures ref.Some? && ref.value in old(records) ==>
                records == old(records) - {ref.value} && saved == if written then records else old(saved)
      ensures ref.None? || ref.value !in old(records) ==> records == old(records) && saved == old(saved)
    {
      if ref.None? || ref.value !in records {
        return;
      }
      records := records - {ref.value};
      Persist(written);
    }
  }

  function Dropped(s: State, ref: Option<Ref>, saved: bool): State {
    if ref.Some? && ref.value in s.records then Persist(s.(records := s.records - {ref.value}), saved) else s
  }

  /** The new secret is stored before the config is written. */
  function WithAdded(s: State, added: Option<Ref>, stored: bool): State {
    if added.None? then s
    else Persist(s.(records := s.records + {added.value}, issued := s.issued + 1), stored)
  }

  /** The write of the config, and the removal that follows its outcome. */
  function WriteSettled(s: State, plan: Plan, written: Outcome, removed: bool): State
    requires plan.Plan?
  {
    match written
    case Written => Dropped(s.(config := plan.next, savedConfig := plan.next), plan.dropped, removed)
    case NotWritten => Dropped(s, plan.added, removed)
    case WrittenThenFailed => Dropped(s.(savedConfig := plan.next), plan.added, removed)
  }

  /** An update from its start to its end, each write with the given outcome. */
  function Updated(s: State, request: Request, stored: bool, written: Outcome, removed: bool): State
    requires s.config.providers != []
  {
    var plan := Prepare(s.config, request, s.issued);
    if plan.Refused? then s
    else
      var held := WithAdded(s, plan.added, stored);
      if plan.added.Some? && !stored then held else WriteSettled(held, plan, written, removed)
  }

  /** A secret is dropped from memory if it is there, and from the file if that write succeeds. */
  ghost predicate Removed(records: set<Ref>, saved: set<Ref>, ref: Option<Ref>, written: bool, now: State) {
    if ref.Some? && ref.value in records
    then
      && now.records == records - {ref.value}
      && now.savedRecords == (if written then records - {ref.value} else saved)
    else now.records == records && now.savedRecords == saved
  }

  /** What an update leaves, by the outcomes of its three writes: the new secret first, then the config, then the
      secret that is no longer needed, which after a failure is the new one. */
  ghost predicate Happened(was: State, now: State, plan: Plan, stored: bool, written: Outcome, removed: bool) {
    if plan.Refused? then now == was
    else
      var records := was.records + (if plan.added.Some? then {plan.added.value} else {});
      && now.issued == was.issued + (if plan.added.Some? then 1 else 0) && now.phase == was.phase
      && if plan.added.Some? && !stored
         then
           && now.records == records && now.savedRecords == was.savedRecords
           && now.config == was.config && now.savedConfig == was.savedConfig
         else
           && now.config == (if written == Written then plan.next else was.config)
           && now.savedConfig == (if written == NotWritten then was.savedConfig else plan.next)
           && Removed(records, if plan.added.Some? then records else was.savedRecords,
                      if written == Written then plan.dropped else plan.added, removed, now)
  }

  lemma UpdateHappens(s: State, request: Request, stored: bool, written: Outcome, removed: bool)
    requires s.config.providers != []
    ensures Happened(s, Updated(s, request, stored, written, removed), Prepare(s.config, request, s.issued),
                     stored, written, removed)
  {
    hide Prepare;
  }

  predicate FailsLate(s: State, request: Request, stored: bool, written: Outcome)
    requires Enabled(s, Start(request, stored))
  {
    LateFailure(Apply(s, Start(request, stored)), WriteConfig(written))
  }

  /** So a whole update is a run of its steps. */
  lemma UpdateIsARun(s: State, request: Request, stored: bool, written: Outcome, removed: bool)
      returns (steps: seq<Step>)
    requires Inv(s) && Enabled(s, Start(request, stored))
    requires !FailsLate(s, request, stored, written)
    ensures Run(s, steps) && After(s, steps) == Updated(s, request, stored, written, removed)
    ensures Inv(Updated(s, request, stored, written, removed)) &&
        Updated(s, request, stored, written, removed).phase.Idle?
  {
    hide Prepare, Sound, Backed, Issued, Inv;
    var started := Apply(s, Start(request, stored));
    var end := Updated(s, request, stored, written, removed);
    StepKeepsInv(s, Start(request, stored));
    var rest: seq<Step> := [];
    if Enabled(started, WriteConfig(written)) {
      var wrote := Apply(started, WriteConfig(written));
      StepKeepsInv(started, WriteConfig(written));
      var last: seq<Step> := [];
      if Enabled(wrote, Remove(removed)) {
        StepKeepsInv(wrote, Remove(removed));
        last := RunCons(wrote, Remove(removed), end, [], end);
      }
      rest := RunCons(started, WriteConfig(written), wrote, last, end);
    }
    steps := RunCons(s, Start(request, stored), started, rest, end);
  }

  lemma RunCons(s: State, step: Step, next: State, rest: seq<Step>, end: State) returns (steps: seq<Step>)
    requires Enabled(s, step) && !LateFailure(s, step) && Apply(s, step) == next
    requires Run(next, rest) && After(next, rest) == end
    ensures steps == [step] + rest && Run(s, steps) && After(s, steps) == end
  {
    steps := [step] + rest;
    assert steps[1..] == rest;
    hide Apply, Enabled, LateFailure;
  }

  class ConfigStore {
    const secrets: SecretStore
    var config: Config
    var saved: Config

    ghost function Model(): State
      reads this, secrets
    {
      State(config, saved, secrets.records, secrets.saved, secrets.issued, Idle)
    }

    ghost predicate Valid()
      reads this, secrets
    {
      Inv(Model())
    }

    constructor (initial: Config, store: SecretStore)
      requires Sound(initial) && Issued(initial, store.issued)
      requires Backed(initial, store.records) && Backed(initial, store.saved)
      ensures secrets == store && config == initial && saved == initial && Valid()
    {
      secrets, config, saved := store, initial, initial;
    }

    /** The write of the config file, and the secret dropped after it: the replaced one, or after a failure
        the one just stored. */
    method Settle(plan: Plan, written: Outcome, removed: bool)
      requires plan.Plan?
      modifies this, secrets
      ensures Model() == WriteSettled(old(Model()), plan, written, removed)
    {
      if !written.Written? {
        if written.WrittenThenFailed? {
          saved := plan.next;
        }
        secrets.Delete(plan.added, removed);
      } else {
        config, saved := plan.next, plan.next;
        secrets.Delete(plan.dropped, removed);
      }
    }

    /** The branches of an update that store or drop a secret around the config write. */
    method Perform(request: Request, stored: bool, written: Outcome, removed: bool) returns (accepted: bool)
      requires config.providers != []
      modifies this, secrets
      ensures Model() == Updated(old(Model()), request, stored, written, removed)
      ensures Happened(old(Model()), Model(), Prepare(old(config), request, old(secrets.issued)),
                       stored, written, removed)
      ensures accepted <==> old(Accepts(request, stored)) && written.Written?
    {
      UpdateHappens(Model(), request, stored, written, removed);
      hide Happened;
      AddedIsTheNewRef(config, request, secrets.issued);
      ghost var start := Model();
      var plan := Prepare(config, request, secrets.issued);
      hide Prepare, WriteSettled, Dropped, Inv;
      if plan.Refused? {
        return false;
      }
      if plan.added.Some? {
        var ref := secrets.Set(stored);
        if !stored {
          return false;
        }
      }
      assert Model() == WithAdded(start, plan.added, stored);
      Settle(plan, written, removed);
      accepted := written.Written?;
    }

    /** Whatever writes fail, unless the one that fails late, an update ends with every reference backed by
        a record, on disk and in memory. */
    method Update(request: Request, stored: bool, written: Outcome, removed: bool) returns (accepted: bool)
      requires Valid()
      modifies this, secrets
      ensures Model() == Updated(old(Model()), request, stored, written, removed)
      ensures exists plan ::
        && Planned(old(config), request, old(secrets.issued), plan)
        && Happened(old(Model()), Model(), plan, stored, written, removed)
        && (accepted <==> plan.Plan? && (plan.added.Some? ==> stored) && written == Written)
      ensures !FailsLate(old(Model()), request, stored, written) ==> Valid()
      ensures accepted <==> old(Accepts(request, stored)) && written.Written?
    {
      ghost var start := Model();
      assert config.providers != [];
      PlannedExactly(config, request, secrets.issued);
      hide Inv, Updated, FailsLate, Planned, Happened, Prepare;
      if !FailsLate(start, request, stored, written) {
        ghost var steps := UpdateIsARun(start, request, stored, written, removed);
      }
      accepted := Perform(request, stored, written, removed);
    }

    ghost predicate Accepts(request: Request, stored: bool)
      requires config.providers != []
      reads this, secrets
    {
      var plan := Prepare(config, request, secrets.issued);
      plan.Plan? && (plan.added.Some? ==> stored)
    }
  }
}
