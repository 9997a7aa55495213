/** electron/application/live-session-context-registry.ts: the registry object. Each method body is one
    atomic stretch of the original; the ghost fields record which calls are suspended. */
module LiveSessionRegistry {
  import opened Options
  import opened SessionLifecycle

  /** The session's entry is on its way out and its teardown pending; one that already was stays as it is. */
  ghost predicate LetGo(was: map<SessionId, Entry>, now: map<SessionId, Entry>, pending: set<(SessionId, Token)>,
      nowPending: set<(SessionId, Token)>, sid: SessionId)
    requires sid in was
  {
    if was[sid].tearingDown then now == was && nowPending == pending
    else
      && now == was[sid := was[sid].(phase := Releasing, tearingDown := true)]
      && nowPending == pending + {(sid, was[sid].owner)}
  }

  /** The session's entry holds what this token was given for. */
  ghost predicate Holds(entries: map<SessionId, Entry>, sid: SessionId, phase: Phase, token: Token) {
    sid in entries && entries[sid].phase == phase && entries[sid].operation == Some(token)
  }

  /** What a held session becomes when its token is given up: live if the manager still has it, gone if not. */
  ghost predicate GivenUp(was: map<SessionId, Entry>, now: map<SessionId, Entry>, sid: SessionId, hasLive: bool)
    requires sid in was
  {
    now == if hasLive then was[sid := was[sid].(phase := Live, operation := None)] else was - {sid}
  }

  /** What a project eviction asks for: no other one, no load or mutation whose project is unknown, and every session
      of the project live and idle. */
  ghost predicate MayEvict(entries: map<SessionId, Entry>, evictions: map<ProjectId, Token>, pid: ProjectId,
      idleSessions: set<SessionId>)
  {
    && pid !in evictions
    && (forall sid :: sid in entries && entries[sid].phase in {Loading, Mutating} ==> entries[sid].project != None)
    && forall sid :: sid in entries && entries[sid].project == Some(pid) ==>
         entries[sid].phase == Live && sid in idleSessions
  }

  /** Every live session of the project is evicted under the token, and no other entry changes. */
  ghost predicate MarkedFor(was: map<SessionId, Entry>, now: map<SessionId, Entry>, pid: ProjectId, token: Token) {
    && now.Keys == was.Keys
    && forall sid :: sid in was ==>
         now[sid] == if was[sid].project == Some(pid) && was[sid].phase == Live
                     then was[sid].(phase := Evicting, operation := Some(token)) else was[sid]
  }

  /** Every session of the project that evicts under the token is live again, and no other entry changes. */
  ghost predicate RestoredFor(was: map<SessionId, Entry>, now: map<SessionId, Entry>, pid: ProjectId, token: Token) {
    && now.Keys == was.Keys
    && forall sid :: sid in was ==>
         now[sid] == if was[sid].project == Some(pid) && Holds(was, sid, Evicting, token)
                     then was[sid].(phase := Live, operation := None) else was[sid]
  }

  class LiveSessionContextRegistry {
    var entries: map<SessionId, Entry>
    var projectEvictions: map<ProjectId, Token>
    /** The source of fresh tokens. */
    var nextToken: Token
    /** The local state of every call of evictIdleProject. */
    var sweeps: seq<Sweep>

    ghost var minted: map<Token, Purpose>
    ghost var loads: set<(SessionId, Token)>
    ghost var bound: set<(SessionId, Token)>
    ghost var teardowns: set<(SessionId, Token)>
    ghost var cleanups: set<(SessionId, Token)>

    ghost function Model(): State
      reads this
    {
      State(entries, projectEvictions, minted, nextToken, loads, bound, teardowns, cleanups, sweeps)
    }

    ghost predicate Valid()
      reads this
    {
      Inv(Model())
    }

    constructor ()
      ensures Model() == EMPTY && Valid()
    {
      entries, projectEvictions, nextToken := map[], map[], 0;
      minted, loads, bound, teardowns, cleanups, sweeps := map[], {}, {}, {}, {}, [];
    }

    method FreshToken(ghost purpose: Purpose) returns (token: Token)
      modifies this`nextToken, this`minted
      ensures token == old(nextToken) && Model() == Mint(old(Model()), purpose)
    {
      token := nextToken;
      minted := minted[nextToken := purpose];
      nextToken := nextToken + 1;
    }

    method ReserveNew(sid: SessionId, pid: ProjectId, request: string) returns (owner: Option<Token>)
      requires Valid()
      modifies this
      ensures Model() == Apply(old(Model()), Step.ReserveNew(sid, pid, request)) && Valid()
      ensures owner.Some? ==> Owned(Model(), sid, owner.value) && entries[sid].phase.Reserved?
                              && entries[sid].request == Some(request) && entries[sid].project == Some(pid)
      ensures owner.Some? <==> if sid in old(entries)
        then
          && old(entries)[sid].phase.Reserved?
          && old(entries)[sid].request == Some(request) && old(entries)[sid].project == Some(pid)
        else pid !in old(projectEvictions)
      ensures owner.Some? && sid in old(entries) ==> owner.value == old(entries)[sid].owner
      ensures owner.Some? && sid !in old(entries) ==>
        && owner.value == old(nextToken)
        && entries == old(entries)[sid := Entry(Reserved, old(nextToken), Some(request), Some(pid), None, false)]
      ensures owner.None? || sid in old(entries) ==> Model() == old(Model())
    {
      hide Inv;
      StepKeepsInv(Model(), Step.ReserveNew(sid, pid, request));
      if sid in entries && entries[sid].phase.Reserved? && entries[sid].request == Some(request) &&
          entries[sid].project == Some(pid) {
        return Some(entries[sid].owner);
      }
      if sid in entries || pid in projectEvictions {
        return None;
      }
      var token := FreshToken(ForOwner(sid));
      entries := entries[sid := Entry(Reserved, token, Some(request), Some(pid), None, false)];
      owner := Some(token);
    }

    method AdoptNew(sid: SessionId, pid: ProjectId, owner: Token) returns (ok: bool)
      requires Valid()
      modifies this`entries
      ensures Model() == Apply(old(Model()), Step.AdoptNew(sid, pid, owner)) && Valid()
      ensures ok <==>
        && sid in old(entries) && old(entries)[sid].owner == owner
        && old(entries)[sid].phase == Reserved && old(entries)[sid].project == Some(pid)
      ensures ok ==> entries == old(entries)[sid := old(entries)[sid].(phase := Live, request := None)]
      ensures !ok ==> entries == old(entries)
    {
      hide Inv;
      StepKeepsInv(Model(), Step.AdoptNew(sid, pid, owner));
      if sid !in entries || entries[sid].owner != owner {
        return false;
      }
      if !entries[sid].phase.Reserved? || entries[sid].project != Some(pid) {
        return false;
      }
      entries := entries[sid := entries[sid].(phase := Live, request := None)];
      ok := true;
    }

    /** #scheduleTeardown on a held entry, told by its owner token. */
    method ScheduleTeardown(sid: SessionId, owner: Token)
      modifies this`entries, this`teardowns
      ensures Model() == SessionLifecycle.ScheduleTeardown(old(Model()), sid, owner)
    {
      if sid in entries && entries[sid].owner == owner {
        if entries[sid].tearingDown {
          return;
        }
        entries := entries[sid := entries[sid].(phase := Releasing, tearingDown := true)];
      }
      teardowns := teardowns + {(sid, owner)};
    }

    method ReleaseOwned(sid: SessionId, owner: Token)
      requires Valid()
      modifies this`entries, this`teardowns
      ensures Model() == Apply(old(Model()), Step.ReleaseOwned(sid, owner)) && Valid()
      ensures if sid in old(entries) && old(entries)[sid].owner == owner
              then LetGo(old(entries), entries, old(teardowns), teardowns, sid)
              else Model() == old(Model())
    {
      hide Inv;
      StepKeepsInv(Model(), Step.ReleaseOwned(sid, owner));
      if sid !in entries || entries[sid].owner != owner {
        return;
      }
      ScheduleTeardown(sid, owner);
    }

    /** One pass of ensureLoaded; Wait asks to come back after the pending teardown. */
    method EnsureLoaded(sid: SessionId, hasLive: bool) returns (answer: LoadAnswer)
      requires Valid()
      modifies this
      ensures Model() == Apply(old(Model()), Step.EnsureLoaded(sid)) && Valid()
      ensures answer.Started? <==> sid !in old(entries)
      ensures answer.Started? ==> Owned(Model(), sid, answer.owner) && entries[sid].phase.Loading?
      ensures answer.Already? <==> sid in old(entries) && old(entries)[sid].phase.Live? && hasLive
      ensures answer.Joined? <==> sid in old(entries) && old(entries)[sid].phase.Loading?
      ensures answer.Wait? <==> sid in old(entries) && old(entries)[sid].phase in {Releasing, Invalid}
      ensures answer.Started? ==>
        && answer.owner == old(nextToken) && loads == old(loads) + {(sid, answer.owner)}
        && entries == old(entries)[sid := Entry(Loading, old(nextToken), None, None, None, false)]
      ensures !answer.Started? ==> Model() == old(Model())
    {
      hide Inv;
      StepKeepsInv(Model(), Step.EnsureLoaded(sid));
      LeavingIsTornDown(Model(), sid);
      if sid in entries && entries[sid].phase.Live? && hasLive {
        return Already;
      }
      if sid in entries && entries[sid].phase.Loading? {
        return Joined;
      }
      if sid in entries && entries[sid].tearingDown {
        return Wait;
      }
      if sid in entries {
        return Busy;
      }
      var token := FreshToken(ForOwner(sid));
      entries := entries[sid := Entry(Loading, token, None, None, None, false)];
      loads := loads + {(sid, token)};
      answer := Started(token);
    }

    /** The check made inside the load's read transaction; false makes the load fail. */
    method LoadBind(sid: SessionId, owner: Token, pid: ProjectId) returns (ok: bool)
      requires Valid() && (sid, owner) in loads
      modifies this`entries, this`bound
      ensures Model() == Apply(old(Model()), Step.LoadBind(sid, owner, pid)) && Valid()
      ensures ok <==>
        && sid in old(entries) && old(entries)[sid].owner == owner
        && old(entries)[sid].phase == Loading && pid !in projectEvictions
      ensures ok ==> entries == old(entries)[sid := old(entries)[sid].(project := Some(pid))]
      ensures bound == if ok then old(bound) + {(sid, owner)} else old(bound)
      ensures !ok ==> entries == old(entries)
    {
      hide Inv;
      StepKeepsInv(Model(), Step.LoadBind(sid, owner, pid));
      if sid !in entries || entries[sid].owner != owner {
        return false;
      }
      if !entries[sid].phase.Loading? || pid in projectEvictions {
        return false;
      }
      entries := entries[sid := entries[sid].(project := Some(pid))];
      bound := bound + {(sid, owner)};
      ok := true;
    }

    method LoadFinish(sid: SessionId, owner: Token, same: bool) returns (ok: bool)
      requires Valid() && (sid, owner) in loads && (sid, owner) in bound
      modifies this`entries, this`loads
      ensures Model() == Apply(old(Model()), Step.LoadFinish(sid, owner, same)) && Valid()
      ensures ok ==> sid in entries && entries[sid].phase.Live? && entries[sid].project.Some?
      ensures ok <==>
        sid in old(entries) && old(entries)[sid].owner == owner && old(entries)[sid].phase == Loading && same
      ensures ok ==> entries == old(entries)[sid := old(entries)[sid].(phase := Live)]
      ensures loads == if ok then old(loads) - {(sid, owner)} else old(loads)
      ensures !ok ==> entries == old(entries)
    {
      hide Inv;
      StepKeepsInv(Model(), Step.LoadFinish(sid, owner, same));
      if Owned(Model(), sid, owner) {
        LoadedHasProject(Model(), sid, owner, same);
      }
      if sid !in entries || entries[sid].owner != owner {
        return false;
      }
      if !entries[sid].phase.Loading? || !same {
        return false;
      }
      entries := entries[sid := entries[sid].(phase := Live)];
      loads := loads - {(sid, owner)};
      ok := true;
    }

    /** The first half of #cleanupFailedLoad, up to closing what was already restored. */
    method LoadFail(sid: SessionId, owner: Token, hasLive: bool)
      requires Valid() && (sid, owner) in loads
      modifies this`entries, this`loads, this`cleanups
      ensures Model() == Apply(old(Model()), Step.LoadFail(sid, owner, hasLive)) && Valid()
      ensures loads == old(loads) - {(sid, owner)}
      ensures var own := sid in old(entries) && old(entries)[sid].owner == owner;
              && entries == (if own && !hasLive then old(entries) - {sid} else old(entries))
              && cleanups == (if own && hasLive then old(cleanups) + {(sid, owner)} else old(cleanups))
    {
      hide Inv;
      StepKeepsInv(Model(), Step.LoadFail(sid, owner, hasLive));
      loads := loads - {(sid, owner)};
      if sid !in entries || entries[sid].owner != owner {
        return;
      }
      if hasLive {
        cleanups := cleanups + {(sid, owner)};
      } else {
        entries := entries - {sid};
      }
    }

    /** The second half, after closing: the entry is deleted without a further look at its owner. */
    method CleanupFinish(sid: SessionId, ghost owner: Token)
      requires Valid() && (sid, owner) in cleanups
      modifies this`entries, this`cleanups
      ensures Model() == Apply(old(Model()), Step.CleanupFinish(sid, owner)) && Valid()
      ensures entries == old(entries) - {sid} && cleanups == old(cleanups) - {(sid, owner)}
    {
      hide Inv;
      StepKeepsInv(Model(), Step.CleanupFinish(sid, owner));
      entries := entries - {sid};
      cleanups := cleanups - {(sid, owner)};
    }

    method ReserveSessionMutation(sid: SessionId, idle: bool) returns (token: Option<Token>)
      requires Valid()
      modifies this
      ensures Model() == Apply(old(Model()), Step.ReserveMutation(sid, idle)) && Valid()
      ensures token.Some? <==> (sid in old(entries) ==> old(entries)[sid].phase == Live) && idle
      ensures token.Some? ==> token.value == old(nextToken) && Holding(Model(), sid, Mutating, token.value)
      ensures token.Some? ==>
        entries == old(entries)[sid :=
          if sid in old(entries) then old(entries)[sid].(phase := Mutating, operation := token)
          else Entry(Mutating, old(nextToken) + 1, None, None, token, false)]
      ensures token.None? ==> Model() == old(Model())
    {
      hide Inv;
      StepKeepsInv(Model(), Step.ReserveMutation(sid, idle));
      if sid in entries && !entries[sid].phase.Live? {
        return None;
      }
      if !idle {
        return None;
      }
      var operation := FreshToken(ForMutation(sid));
      if sid in entries {
        entries := entries[sid := entries[sid].(phase := Mutating, operation := Some(operation))];
      } else {
        var owner := FreshToken(ForOwner(sid));
        entries := entries[sid := Entry(Mutating, owner, None, None, Some(operation), false)];
      }
      token := Some(operation);
    }

    method BindSessionMutationProject(sid: SessionId, token: Token, pid: ProjectId) returns (ok: bool)
      requires Valid()
      modifies this`entries
      ensures Model() == Apply(old(Model()), Step.BindMutation(sid, token, pid)) && Valid()
      ensures ok <==>
        && Holds(old(entries), sid, Mutating, token)
        && pid !in projectEvictions && old(entries)[sid].project in {None, Some(pid)}
      ensures ok ==> entries == old(entries)[sid := old(entries)[sid].(project := Some(pid))]
      ensures !ok ==> entries == old(entries)
    {
      hide Inv;
      StepKeepsInv(Model(), Step.BindMutation(sid, token, pid));
      if sid !in entries || !entries[sid].phase.Mutating? || entries[sid].operation != Some(token)
         || (entries[sid].project.Some? && entries[sid].project != Some(pid)) || pid in projectEvictions
      {
        return false;
      }
      entries := entries[sid := entries[sid].(project := Some(pid))];
      ok := true;
    }

    method ReleaseSessionMutation(sid: SessionId, token: Token, hasLive: bool)
      requires Valid()
      modifies this`entries
      ensures Model() == Apply(old(Model()), Step.ReleaseMutation(sid, token, hasLive)) && Valid()
      ensures if Holds(old(entries), sid, Mutating, token) then GivenUp(old(entries), entries, sid, hasLive)
              else entries == old(entries)
    {
      hide Inv;
      StepKeepsInv(Model(), Step.ReleaseMutation(sid, token, hasLive));
      if sid !in entries || !entries[sid].phase.Mutating? || entries[sid].operation != Some(token) {
        return;
      }
      if hasLive {
        entries := entries[sid := entries[sid].(phase := Live, operation := None)];
      } else {
        entries := entries - {sid};
      }
    }

    method ReserveSessionEviction(sid: SessionId, idle: bool) returns (token: Option<Token>)
      requires Valid()
      modifies this
      ensures Model() == Apply(old(Model()), Step.ReserveEviction(sid, idle)) && Valid()
      ensures token.Some? <==> (sid in old(entries) ==> old(entries)[sid].phase == Live) && idle
      ensures token.Some? ==> token.value == old(nextToken) && Holding(Model(), sid, Evicting, token.value)
      ensures token.Some? ==>
        entries == old(entries)[sid :=
          if sid in old(entries) then old(entries)[sid].(phase := Evicting, operation := token)
          else Entry(Evicting, old(nextToken), None, None, token, false)]
      ensures token.None? ==> Model() == old(Model())
    {
      hide Inv;
      StepKeepsInv(Model(), Step.ReserveEviction(sid, idle));
      if sid in entries && !entries[sid].phase.Live? {
        return None;
      }
      if !idle {
        return None;
      }
      var operation := FreshToken(ForEviction(sid));
      if sid in entries {
        entries := entries[sid := entries[sid].(phase := Evicting, operation := Some(operation))];
      } else {
        entries := entries[sid := Entry(Evicting, operation, None, None, Some(operation), false)];
      }
      token := Some(operation);
    }

    /** Keeps the registry in order exactly when the token is not that of the project's eviction. */
    method CancelSessionEviction(sid: SessionId, token: Token, hasLive: bool)
      requires Valid()
      modifies this`entries
      ensures Model() == Apply(old(Model()), Step.CancelEviction(sid, token, hasLive))
      ensures Valid() <==> !CancelsThroughProject(old(Model()), Step.CancelEviction(sid, token, hasLive))
      ensures if Holds(old(entries), sid, Evicting, token) then GivenUp(old(entries), entries, sid, hasLive)
              else entries == old(entries)
    {
      hide Inv;
      PromiseKeptExactly(Model(), Step.CancelEviction(sid, token, hasLive));
      if sid !in entries || !entries[sid].phase.Evicting? || entries[sid].operation != Some(token) {
        return;
      }
      if hasLive {
        entries := entries[sid := entries[sid].(phase := Live, operation := None)];
      } else {
        entries := entries - {sid};
      }
    }

    method ReleaseSession(sid: SessionId, token: Option<Token>, idle: bool) returns (ok: bool)
      requires Valid()
      modifies this`entries, this`teardowns
      ensures Model() == Apply(old(Model()), Step.ReleaseSession(sid, token, idle)) && Valid()
      ensures !ok <==> token.None? && !((sid in old(entries) ==> old(entries)[sid].phase == Live) && idle)
      ensures if ok && sid in old(entries) && (token.Some? ==> Holds(old(entries), sid, Evicting, token.value))
              then LetGo(old(entries), entries, old(teardowns), teardowns, sid)
              else Model() == old(Model())
    {
      hide Inv;
      StepKeepsInv(Model(), Step.ReleaseSession(sid, token, idle));
      if token.Some? {
        if sid !in entries || !entries[sid].phase.Evicting? || entries[sid].operation != Some(token.value) {
          return true;
        }
      } else {
        if (sid in entries && !entries[sid].phase.Live?) || !idle {
          return false;
        }
      }
      if sid in entries {
        ScheduleTeardown(sid, entries[sid].owner);
      }
      ok := true;
    }

    method ProjectSessionsIdle(pid: ProjectId, idleSessions: set<SessionId>) returns (ok: bool)
      ensures ok <==> ProjectIdle(Model(), pid, idleSessions)
      ensures ok <==> MayEvict(entries, projectEvictions, pid, idleSessions)
    {
      if pid in projectEvictions {
        return false;
      }
      var rest := entries.Keys;
      while rest != {}
        invariant rest <= entries.Keys
        invariant forall sid :: sid in entries && sid !in rest ==>
          && !((entries[sid].phase.Loading? || entries[sid].phase.Mutating?) && entries[sid].project.None?)
          && (entries[sid].project == Some(pid) ==> entries[sid].phase.Live? && sid in idleSessions)
        decreases |rest|
      {
        var sid :| sid in rest;
        var entry := entries[sid];
        if (entry.phase.Loading? || entry.phase.Mutating?) && entry.project.None? {
          return false;
        }
        if entry.project == Some(pid) && (!entry.phase.Live? || sid !in idleSessions) {
          return false;
        }
        rest := rest - {sid};
      }
      ok := true;
    }

    method ReserveProjectEviction(pid: ProjectId, idleSessions: set<SessionId>) returns (token: Option<Token>)
      requires Valid()
      modifies this
      ensures Model() == Apply(old(Model()), Step.ReserveProject(pid, idleSessions)) && Valid()
      ensures token.Some? <==> MayEvict(old(entries), old(projectEvictions), pid, idleSessions)
      ensures token.Some? ==>
        && token.value == old(nextToken) && projectEvictions == old(projectEvictions)[pid := token.value]
        && MarkedFor(old(entries), entries, pid, token.value)
      ensures token.None? ==> Model() == old(Model())
    {
      MarkedIsEvicting(entries, pid, nextToken);
      hide Inv, ProjectIdle, AllMarked, MayEvict, MarkedFor;
      StepKeepsInv(Model(), Step.ReserveProject(pid, idleSessions));
      var ok := ProjectSessionsIdle(pid, idleSessions);
      if !ok {
        return None;
      }
      var operation := FreshToken(ForProject(pid));
      projectEvictions := projectEvictions[pid := operation];
      entries := MarkEvicting(entries, pid, operation);
      token := Some(operation);
    }

    method CancelProjectEviction(pid: ProjectId, token: Token)
      requires Valid()
      modifies this`entries, this`projectEvictions
      ensures Model() == Apply(old(Model()), Step.CancelProject(pid, token)) && Valid()
      ensures pid in old(projectEvictions) && old(projectEvictions)[pid] == token ==>
        projectEvictions == old(projectEvictions) - {pid} && RestoredFor(old(entries), entries, pid, token)
      ensures !(pid in old(projectEvictions) && old(projectEvictions)[pid] == token) ==> Model() == old(Model())
    {
      RestoredIsLive(entries, pid, token);
      hide Inv, AllRestored, RestoredFor;
      StepKeepsInv(Model(), Step.CancelProject(pid, token));
      if pid !in projectEvictions || projectEvictions[pid] != token {
        return;
      }
      projectEvictions := projectEvictions - {pid};
      entries := Unmark(entries, pid, token);
    }

    /** evictIdleProject up to its first wait: without a token the project is reserved first; then the entries
        marked under the token are collected. */
    method StartSweep(pid: ProjectId, token: Option<Token>, idleSessions: set<SessionId>) returns (started: bool)
      requires Valid()
      modifies this
      ensures token.Some? ==> Model() == Apply(old(Model()), Step.SweepStart(pid, token.value))
      ensures token.None? && started ==>
        var reserved := Apply(old(Model()), Step.ReserveProject(pid, idleSessions));
        Model() == Apply(reserved, Step.SweepStart(pid, old(nextToken)))
      ensures Valid()
      ensures started <==> if token.Some? then pid in old(projectEvictions) && old(projectEvictions)[pid] == token.value
                           else MayEvict(old(entries), old(projectEvictions), pid, idleSessions)
      ensures !started ==> Model() == old(Model())
      ensures started ==>
        && (if token.Some? then entries == old(entries) else MarkedFor(old(entries), entries, pid, old(nextToken)))
        && SweepsAll(old(sweeps), entries, pid, if token.Some? then token.value else old(nextToken))
    {
      hide Inv, ProjectIdle, Collected, EvictLive, RestoreLive, Settle, SessionLifecycle.ScheduleTeardown;
      var operation := token;
      if token.Some? {
        if pid !in projectEvictions || projectEvictions[pid] != token.value {
          return false;
        }
      } else {
        operation := ReserveProjectEviction(pid, idleSessions);
        if operation.None? {
          return false;
        }
      }
      SweepUnder(pid, operation.value);
      started := true;
    }

    /** One sweep more, which has to come to exactly the entries of the project that evict under its token. */
    ghost predicate SweepsAll(was: seq<Sweep>, entries: map<SessionId, Entry>, pid: ProjectId, token: Token)
      reads this`sweeps
    {
      && |sweeps| == |was| + 1 && sweeps[..|was|] == was
      && sweeps[|was|].pid == pid && sweeps[|was|].token == token && sweeps[|was|].awaited.None? && !sweeps[|was|].done
      && forall sid, owner :: (sid, owner) in sweeps[|was|].todo <==>
           && sid in entries && entries[sid].owner == owner && entries[sid].project == Some(pid)
           && Holds(entries, sid, Evicting, token)
    }

    method SweepUnder(pid: ProjectId, token: Token)
      requires Valid() && pid in projectEvictions && projectEvictions[pid] == token
      modifies this`sweeps
      ensures Model() == Apply(old(Model()), Step.SweepStart(pid, token)) && Valid()
      ensures SweepsAll(old(sweeps), entries, pid, token)
    {
      hide Inv, ProjectIdle, Collected;
      StepKeepsInv(Model(), Step.SweepStart(pid, token));
      CollectedExactly(Model(), pid, token);
      var todo := CollectMarked(pid, token);
      sweeps := sweeps + [Sweep(pid, token, todo, None, false)];
    }

    /** The loop that collects the entries of a project marked under a token. */
    method CollectMarked(pid: ProjectId, token: Token) returns (todo: set<(SessionId, Token)>)
      ensures todo == Collected(Model(), pid, token)
    {
      todo := {};
      var rest := entries.Keys;
      while rest != {}
        invariant rest <= entries.Keys
        invariant todo == set sid | sid in entries && sid !in rest && entries[sid].project == Some(pid)
                                    && Holding(Model(), sid, Evicting, token) :: (sid, entries[sid].owner)
        decreases |rest|
      {
        var sid :| sid in rest;
        if entries[sid].project == Some(pid) && entries[sid].phase.Evicting? && entries[sid].operation == Some(token) {
          todo := todo + {(sid, entries[sid].owner)};
        }
        rest := rest - {sid};
      }
    }

    /** One turn of evictIdleProject: the teardown of a collected entry, then to be awaited. */
    method SweepOne(i: nat, entry: (SessionId, Token))
      requires Valid() && i < |sweeps| && !sweeps[i].done && entry in sweeps[i].todo
      requires sweeps[i].awaited.Some? ==> sweeps[i].awaited.value !in teardowns
      modifies this`entries, this`teardowns, this`sweeps
      ensures Model() == Apply(old(Model()), Step.SweepNext(i, entry)) && Valid()
      ensures Owned(Model(), entry.0, entry.1) ==> Leaving(entries[entry.0])
      ensures if entry.0 in old(entries) && old(entries)[entry.0].owner == entry.1
              then LetGo(old(entries), entries, old(teardowns), teardowns, entry.0)
              else entries == old(entries) && teardowns == old(teardowns) + {entry}
      ensures sweeps == old(sweeps)[i := old(sweeps)[i].(todo := old(sweeps)[i].todo - {entry}, awaited := Some(entry))]
    {
      hide Inv;
      StepKeepsInv(Model(), Step.SweepNext(i, entry));
      LeavingIsTornDown(Model(), entry.0);
      ScheduleTeardown(entry.0, entry.1);
      sweeps := sweeps[i := sweeps[i].(todo := sweeps[i].todo - {entry}, awaited := Some(entry))];
    }

    /** The end of evictIdleProject: every collected entry has been torn down, and so none evicts under the
        token any more. */
    method FinishSweep(i: nat)
      requires Valid() && i < |sweeps| && !sweeps[i].done && sweeps[i].todo == {}
      requires sweeps[i].awaited.Some? ==> sweeps[i].awaited.value !in teardowns
      modifies this`projectEvictions, this`sweeps
      ensures Model() == Apply(old(Model()), Step.SweepFinish(i)) && Valid()
      ensures forall sid :: sid in entries ==> !Holding(Model(), sid, Evicting, sweeps[i].token)
      ensures sweeps == old(sweeps)[i := old(sweeps)[i].(done := true)]
      ensures var sweep := old(sweeps)[i];
              var held := sweep.pid in old(projectEvictions) && old(projectEvictions)[sweep.pid] == sweep.token;
              projectEvictions == if held then old(projectEvictions) - {sweep.pid} else old(projectEvictions)
    {
      hide Inv;
      StepKeepsInv(Model(), Step.SweepFinish(i));
      SweptIsGone(Model(), i);
      var sweep := sweeps[i];
      sweeps := sweeps[i := sweep.(done := true)];
      if sweep.pid in projectEvictions && projectEvictions[sweep.pid] == sweep.token {
        projectEvictions := projectEvictions - {sweep.pid};
      }
    }

    method Invalidate(sid: SessionId)
      requires Valid()
      modifies this`entries, this`teardowns
      ensures Model() == Apply(old(Model()), Step.Invalidate(sid)) && Valid()
      ensures sid in entries ==> Leaving(entries[sid])
      ensures sid !in old(entries) ==> Model() == old(Model())
      ensures sid in old(entries) ==>
        && entries == old(entries)[sid := old(entries)[sid].(phase := entries[sid].phase, tearingDown := true)]
        && entries[sid].phase == (if old(entries)[sid].tearingDown then Invalid else Releasing)
        && teardowns == old(teardowns) + (if old(entries)[sid].tearingDown then {} else {(sid, entries[sid].owner)})
    {
      hide Inv;
      StepKeepsInv(Model(), Step.Invalidate(sid));
      if sid !in entries {
        return;
      }
      entries := entries[sid := entries[sid].(phase := Invalid)];
      ScheduleTeardown(sid, entries[sid].owner);
    }

    /** The end of #closeOwnedContext: the table is cleared only of the very entry torn down. */
    method TeardownFinish(sid: SessionId, owner: Token)
      requires Valid() && (sid, owner) in teardowns
      modifies this`entries, this`teardowns
      ensures Model() == Apply(old(Model()), Step.TeardownFinish(sid, owner)) && Valid()
      ensures var own := sid in old(entries) && old(entries)[sid].owner == owner;
              entries == if own then old(entries) - {sid} else old(entries)
      ensures teardowns == old(teardowns) - {(sid, owner)}
    {
      hide Inv;
      StepKeepsInv(Model(), Step.TeardownFinish(sid, owner));
      if sid in entries && entries[sid].owner == owner {
        entries := entries - {sid};
      }
      teardowns := teardowns - {(sid, owner)};
    }

    /** While the project is being evicted no background run may start in one of its sessions. */
    method CanStartBackgroundRun(sid: SessionId, idle: bool) returns (ok: bool)
      requires Valid()
      ensures ok <==> sid in entries && entries[sid].phase.Live? && idle
      ensures ok && entries[sid].project.Some? ==> entries[sid].project.value !in projectEvictions
    {
      LiveIsFenced(Model(), sid);
      hide Inv;
      if sid !in entries || !entries[sid].phase.Live?
         || (entries[sid].project.Some? && entries[sid].project.value in projectEvictions)
      {
        return false;
      }
      ok := idle;
    }
  }

  lemma MarkedIsEvicting(entries: map<SessionId, Entry>, pid: ProjectId, token: Token)
    ensures MarkedFor(entries, AllMarked(entries, pid, token), pid, token)
  {
  }

  lemma RestoredIsLive(entries: map<SessionId, Entry>, pid: ProjectId, token: Token)
    ensures RestoredFor(entries, AllRestored(entries, pid, token), pid, token)
  {
  }

  lemma CollectedExactly(s: State, pid: ProjectId, token: Token)
    ensures forall sid, owner :: (sid, owner) in Collected(s, pid, token) <==>
              && sid in s.entries && s.entries[sid].owner == owner && s.entries[sid].project == Some(pid)
              && Holds(s.entries, sid, Evicting, token)
  {
  }

  /** The loop over all entries when a project eviction is reserved. */
  method MarkEvicting(entries: map<SessionId, Entry>, pid: ProjectId, token: Token)
      returns (marked: map<SessionId, Entry>)
    ensures marked == AllMarked(entries, pid, token)
  {
    marked := entries;
    var rest := entries.Keys;
    while rest != {}
      invariant rest <= entries.Keys == marked.Keys
      invariant forall sid :: sid in entries ==>
        marked[sid] == if sid in rest then entries[sid] else EvictLive(entries[sid], pid, token)
      decreases |rest|
    {
      var sid :| sid in rest;
      if marked[sid].project == Some(pid) && marked[sid].phase.Live? {
        marked := marked[sid := marked[sid].(phase := Evicting, operation := Some(token))];
      }
      rest := rest - {sid};
    }
  }

  /** The loop over all entries when a project eviction is cancelled. */
  method Unmark(entries: map<SessionId, Entry>, pid: ProjectId, token: Token) returns (restored: map<SessionId, Entry>)
    ensures restored == AllRestored(entries, pid, token)
  {
    restored := entries;
    var rest := entries.Keys;
    while rest != {}
      invariant rest <= entries.Keys == restored.Keys
      invariant forall sid :: sid in entries ==>
        restored[sid] == if sid in rest then entries[sid] else RestoreLive(entries[sid], pid, token)
      decreases |rest|
    {
      var sid :| sid in rest;
      if restored[sid].project == Some(pid) && restored[sid].phase.Evicting? && restored[sid].operation == Some(token) {
        restored := restored[sid := restored[sid].(phase := Live, operation := None)];
      }
      rest := rest - {sid};
    }
  }

  datatype LoadAnswer = Already | Joined | Wait | Busy | Started(owner: Token)
}
