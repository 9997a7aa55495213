/** The steps of electron/application/live-session-context-registry.ts as functions of its state, and
    what every interleaving of them keeps. A step is what runs between two awaits; suspended calls
    are the pending loads, teardowns and cleanups. Answers of the session manager and the durable
    store arrive as step arguments. */
module SessionLifecycle {
  import opened Options

  type SessionId = nat
  type ProjectId = nat
  type Token = nat

  datatype Phase = Reserved | Loading | Live | Mutating | Releasing | Evicting | Invalid

  datatype Entry = Entry(
    phase: Phase,
    owner: Token,
    request: Option<string>,
    project: Option<ProjectId>,
    operation: Option<Token>,
    tearingDown: bool)

  /** What a token was minted for. */
  datatype Purpose =
    | ForOwner(sid: SessionId)
    | ForMutation(sid: SessionId)
    | ForEviction(sid: SessionId)
    | ForProject(pid: ProjectId)

  /** A call of evictIdleProject under way: the entries it collected and has not come to, and the one whose
      teardown it awaits. */
  datatype Sweep = Sweep(
    pid: ProjectId,
    token: Token,
    todo: set<(SessionId, Token)>,
    awaited: Option<(SessionId, Token)>,
    done: bool)

  /** `bound` holds the loads that have learned their project. */
  datatype State = State(
    entries: map<SessionId, Entry>,
    evictions: map<ProjectId, Token>,
    minted: map<Token, Purpose>,
    nextToken: Token,
    loads: set<(SessionId, Token)>,
    bound: set<(SessionId, Token)>,
    teardowns: set<(SessionId, Token)>,
    cleanups: set<(SessionId, Token)>,
    sweeps: seq<Sweep>)

  const EMPTY := State(map[], map[], map[], 0, {}, {}, {}, {}, [])

  datatype Step =
    | ReserveNew(sid: SessionId, pid: ProjectId, request: string)
    | AdoptNew(sid: SessionId, pid: ProjectId, owner: Token)
    | ReleaseOwned(sid: SessionId, owner: Token)
    | EnsureLoaded(sid: SessionId)
    | LoadBind(sid: SessionId, owner: Token, pid: ProjectId)
    | LoadFinish(sid: SessionId, owner: Token, same: bool)
    | LoadFail(sid: SessionId, owner: Token, hasLive: bool)
    | CleanupFinish(sid: SessionId, owner: Token)
    | ReserveMutation(sid: SessionId, idle: bool)
    | BindMutation(sid: SessionId, token: Token, pid: ProjectId)
    | ReleaseMutation(sid: SessionId, token: Token, hasLive: bool)
    | ReserveEviction(sid: SessionId, idle: bool)
    | CancelEviction(sid: SessionId, token: Token, hasLive: bool)
    | ReleaseSession(sid: SessionId, maybe: Option<Token>, idle: bool)
    | ReserveProject(pid: ProjectId, idleSessions: set<SessionId>)
    | CancelProject(pid: ProjectId, token: Token)
    | SweepStart(pid: ProjectId, token: Token)
    | SweepNext(i: nat, entry: (SessionId, Token))
    | SweepFinish(i: nat)
    | Invalidate(sid: SessionId)
    | TeardownFinish(sid: SessionId, owner: Token)

  predicate Owned(s: State, sid: SessionId, owner: Token) {
    sid in s.entries && s.entries[sid].owner == owner
  }

  predicate Holding(s: State, sid: SessionId, phase: Phase, token: Token) {
    sid in s.entries && s.entries[sid].phase == phase && s.entries[sid].operation == Some(token)
  }

  predicate LiveOrAbsent(s: State, sid: SessionId) {
    sid in s.entries ==> s.entries[sid].phase.Live?
  }

  function Put(s: State, sid: SessionId, e: Entry): State {
    s.(entries := s.entries[sid := e])
  }

  function Remove(s: State, sid: SessionId): State {
    s.(entries := s.entries - {sid})
  }

  function Mint(s: State, purpose: Purpose): State {
    s.(minted := s.minted[s.nextToken := purpose], nextToken := s.nextToken + 1)
  }

  /** Back to live when the manager still has the session, gone otherwise; the token is dropped. */
  function Settle(s: State, sid: SessionId, hasLive: bool): State
    requires sid in s.entries
  {
    if hasLive then Put(s, sid, s.entries[sid].(phase := Live, operation := None)) else Remove(s, sid)
  }

  /** #scheduleTeardown: at most once per entry, also for an entry no longer in the table. */
  function ScheduleTeardown(s: State, sid: SessionId, owner: Token): State {
    var scheduled := s.(teardowns := s.teardowns + {(sid, owner)});
    if !Owned(s, sid, owner) then scheduled
    else if s.entries[sid].tearingDown then s
    else Put(scheduled, sid, s.entries[sid].(phase := Releasing, tearingDown := true))
  }

  /** What reserving a project eviction refuses: another eviction, work of unknown project, and any
      session of the project that is not live and idle. */
  predicate ProjectIdle(s: State, pid: ProjectId, idleSessions: set<SessionId>) {
    && pid !in s.evictions
    && forall sid :: sid in s.entries ==>
         && !((s.entries[sid].phase.Loading? || s.entries[sid].phase.Mutating?) && s.entries[sid].project.None?)
         && (s.entries[sid].project == Some(pid) ==> s.entries[sid].phase.Live? && sid in idleSessions)
  }

  function EvictLive(e: Entry, pid: ProjectId, token: Token): Entry {
    if e.project == Some(pid) && e.phase.Live? then e.(phase := Evicting, operation := Some(token)) else e
  }

  function RestoreLive(e: Entry, pid: ProjectId, token: Token): Entry {
    if e.project == Some(pid) && e.phase.Evicting? && e.operation == Some(token)
    then e.(phase := Live, operation := None) else e
  }

  function AllMarked(entries: map<SessionId, Entry>, pid: ProjectId, token: Token): map<SessionId, Entry> {
    map sid | sid in entries :: EvictLive(entries[sid], pid, token)
  }

  function AllRestored(entries: map<SessionId, Entry>, pid: ProjectId, token: Token): map<SessionId, Entry> {
    map sid | sid in entries :: RestoreLive(entries[sid], pid, token)
  }

  /** The entries a project eviction has marked. */
  function Collected(s: State, pid: ProjectId, token: Token): set<(SessionId, Token)> {
    set sid | sid in s.entries && s.entries[sid].project == Some(pid) && Holding(s, sid, Evicting, token) ::
      (sid, s.entries[sid].owner)
  }

  /** The sweep goes on: the teardown it awaited, if any, has finished. */
  predicate SweepReady(s: State, i: nat) {
    && i < |s.sweeps| && !s.sweeps[i].done
    && (s.sweeps[i].awaited.Some? ==> s.sweeps[i].awaited.value !in s.teardowns)
  }

  /** Suspended calls resume only if they are pending; a load finishes only after it learned its project. */
  predicate Enabled(s: State, step: Step) {
    match step
    case LoadBind(sid, owner, _) => (sid, owner) in s.loads
    case LoadFinish(sid, owner, _) => (sid, owner) in s.loads && (sid, owner) in s.bound
    case LoadFail(sid, owner, _) => (sid, owner) in s.loads
    case CleanupFinish(sid, owner) => (sid, owner) in s.cleanups
    case TeardownFinish(sid, owner) => (sid, owner) in s.teardowns
    case SweepNext(i, entry) => SweepReady(s, i) && entry in s.sweeps[i].todo
    case SweepFinish(i) => SweepReady(s, i) && s.sweeps[i].todo == {}
    case _ => true
  }

  /** Reserving a new session, and starting a load. */
  predicate OfNewSession(step: Step) {
    step.ReserveNew? || step.AdoptNew? || step.ReleaseOwned? || step.EnsureLoaded?
  }

  function NewSessionStep(s: State, step: Step): State
    requires OfNewSession(step)
  {
    match step
    case ReserveNew(sid, pid, request) =>
      if sid in s.entries || pid in s.evictions then s
      else Mint(Put(s, sid, Entry(Reserved, s.nextToken, Some(request), Some(pid), None, false)), ForOwner(sid))
    case AdoptNew(sid, pid, owner) =>
      if Owned(s, sid, owner) && s.entries[sid].phase.Reserved? && s.entries[sid].project == Some(pid)
      then Put(s, sid, s.entries[sid].(phase := Live, request := None)) else s
    case ReleaseOwned(sid, owner) =>
      if Owned(s, sid, owner) then ScheduleTeardown(s, sid, owner) else s
    case EnsureLoaded(sid) =>
      if sid in s.entries then s
      else
        var pending := s.(loads := s.loads + {(sid, s.nextToken)});
        Mint(Put(pending, sid, Entry(Loading, s.nextToken, None, None, None, false)), ForOwner(sid))
  }

  /** The stretches of a load. */
  predicate OfLoad(step: Step) {
    step.LoadBind? || step.LoadFinish? || step.LoadFail? || step.CleanupFinish?
  }

  function LoadStep(s: State, step: Step): State
    requires OfLoad(step)
  {
    match step
    case LoadBind(sid, owner, pid) =>
      if Owned(s, sid, owner) && s.entries[sid].phase.Loading? && pid !in s.evictions
      then Put(s, sid, s.entries[sid].(project := Some(pid))).(bound := s.bound + {(sid, owner)}) else s
    case LoadFinish(sid, owner, same) =>
      if Owned(s, sid, owner) && s.entries[sid].phase.Loading? && same
      then Put(s, sid, s.entries[sid].(phase := Live)).(loads := s.loads - {(sid, owner)}) else s
    case LoadFail(sid, owner, hasLive) =>
      var rest := s.(loads := s.loads - {(sid, owner)});
      if !Owned(s, sid, owner) then rest
      else if hasLive then rest.(cleanups := s.cleanups + {(sid, owner)})
      else Remove(rest, sid)
    case CleanupFinish(sid, owner) =>
      Remove(s, sid).(cleanups := s.cleanups - {(sid, owner)})
  }

  /** A mutation of one session. */
  predicate OfMutation(step: Step) {
    step.ReserveMutation? || step.BindMutation? || step.ReleaseMutation?
  }

  function MutationStep(s: State, step: Step): State
    requires OfMutation(step)
  {
    match step
    case ReserveMutation(sid, idle) =>
      if !LiveOrAbsent(s, sid) || !idle then s
      else if sid in s.entries
      then Mint(Put(s, sid, s.entries[sid].(phase := Mutating, operation := Some(s.nextToken))), ForMutation(sid))
      else
        var t := Mint(s, ForMutation(sid));
        Mint(Put(t, sid, Entry(Mutating, t.nextToken, None, None, Some(s.nextToken), false)), ForOwner(sid))
    case BindMutation(sid, token, pid) =>
      if Holding(s, sid, Mutating, token) && s.entries[sid].project in {None, Some(pid)} && pid !in s.evictions
      then Put(s, sid, s.entries[sid].(project := Some(pid))) else s
    case ReleaseMutation(sid, token, hasLive) =>
      if Holding(s, sid, Mutating, token) then Settle(s, sid, hasLive) else s
  }

  /** The eviction of one session. */
  predicate OfEviction(step: Step) {
    step.ReserveEviction? || step.CancelEviction? || step.ReleaseSession?
  }

  function EvictionStep(s: State, step: Step): State
    requires OfEviction(step)
  {
    match step
    case ReserveEviction(sid, idle) =>
      if !LiveOrAbsent(s, sid) || !idle then s
      else if sid in s.entries
      then Mint(Put(s, sid, s.entries[sid].(phase := Evicting, operation := Some(s.nextToken))), ForEviction(sid))
      else Mint(Put(s, sid, Entry(Evicting, s.nextToken, None, None, Some(s.nextToken), false)), ForEviction(sid))
    case CancelEviction(sid, token, hasLive) =>
      if Holding(s, sid, Evicting, token) then Settle(s, sid, hasLive) else s
    case ReleaseSession(sid, maybe, idle) =>
      if maybe.Some? then
        if Holding(s, sid, Evicting, maybe.value) then ScheduleTeardown(s, sid, s.entries[sid].owner) else s
      else if sid in s.entries && s.entries[sid].phase.Live? && idle then
          ScheduleTeardown(s, sid, s.entries[sid].owner) else s
  }

  /** The two steps that go over all entries. */
  predicate OfProject(step: Step) {
    step.ReserveProject? || step.CancelProject?
  }

  function ProjectStep(s: State, step: Step): State
    requires OfProject(step)
  {
    match step
    case ReserveProject(pid, idleSessions) =>
      if !ProjectIdle(s, pid, idleSessions) then s
      else
        Mint(s, ForProject(pid)).(
          evictions := s.evictions[pid := s.nextToken],
          entries := AllMarked(s.entries, pid, s.nextToken))
    case CancelProject(pid, token) =>
      if pid !in s.evictions || s.evictions[pid] != token then s
      else
        s.(evictions := s.evictions - {pid},
           entries := AllRestored(s.entries, pid, token))
  }

  /** The stretches of evictIdleProject. */
  predicate OfSweep(step: Step) {
    step.SweepStart? || step.SweepNext? || step.SweepFinish?
  }

  function SweepStep(s: State, step: Step): State
    requires OfSweep(step)
  {
    match step
    case SweepStart(pid, token) =>
      if pid in s.evictions && s.evictions[pid] == token
      then s.(sweeps := s.sweeps + [Sweep(pid, token, Collected(s, pid, token), None, false)]) else s
    case SweepNext(i, entry) =>
      if i >= |s.sweeps| then s
      else
        ScheduleTeardown(s, entry.0, entry.1)
          .(sweeps := s.sweeps[i := s.sweeps[i].(todo := s.sweeps[i].todo - {entry}, awaited := Some(entry))])
    case SweepFinish(i) =>
      if i >= |s.sweeps| then s
      else
        var sweep := s.sweeps[i];
        var ended := s.(sweeps := s.sweeps[i := sweep.(done := true)]);
        if sweep.pid in s.evictions && s.evictions[sweep.pid] == sweep.token
        then ended.(evictions := s.evictions - {sweep.pid}) else ended
  }

  /** Letting an entry go. */
  predicate OfTeardown(step: Step) {
    step.Invalidate? || step.TeardownFinish?
  }

  function TeardownStep(s: State, step: Step): State
    requires OfTeardown(step)
  {
    match step
    case Invalidate(sid) =>
      if sid !in s.entries then s
      else ScheduleTeardown(Put(s, sid, s.entries[sid].(phase := Invalid)), sid, s.entries[sid].owner)
    case TeardownFinish(sid, owner) =>
      var rest := s.(teardowns := s.teardowns - {(sid, owner)});
      if Owned(s, sid, owner) then Remove(rest, sid) else rest
  }

  function Apply(s: State, step: Step): State {
    if OfNewSession(step) then NewSessionStep(s, step)
    else if OfLoad(step) then LoadStep(s, step)
    else if OfMutation(step) then MutationStep(s, step)
    else if OfEviction(step) then EvictionStep(s, step)
    else if OfProject(step) then ProjectStep(s, step)
    else if OfSweep(step) then SweepStep(s, step)
    else TeardownStep(s, step)
  }

  /** Releasing and invalid entries are on their way out. */
  predicate Leaving(e: Entry) {
    e.phase.Releasing? || e.phase.Invalid?
  }

  /** The promise of a project eviction: nothing of the project is reserved, loading, mutating or live. */
  ghost predicate Fenced(s: State, e: Entry) {
    e.project.Some? && e.project.value in s.evictions ==>
      Leaving(e) || (e.phase.Evicting? && e.operation == Some(s.evictions[e.project.value]))
  }

  ghost predicate EntryOk(s: State, sid: SessionId, e: Entry) {
    && e.owner in s.minted && s.minted[e.owner] in {ForOwner(sid), ForEviction(sid)}
    && (e.operation.Some? ==> e.operation.value in s.minted)
    && (e.phase.Mutating? ==> e.operation.Some? && s.minted[e.operation.value] == ForMutation(sid))
    && (e.phase.Evicting? ==>
          e.operation.Some? && (s.minted[e.operation.value] == ForEviction(sid) || EvictedWithProject(s, e)))
    && (e.phase.Reserved? || e.phase.Loading? || e.phase.Live? ==> e.operation.None?)
    && e.tearingDown == Leaving(e)
    && (e.tearingDown ==> (sid, e.owner) in s.teardowns)
    && Fenced(s, e)
  }

  ghost predicate EvictedWithProject(s: State, e: Entry) {
    e.project.Some? && e.project.value in s.evictions && e.operation == Some(s.evictions[e.project.value])
  }

  ghost predicate TokensOk(s: State) {
    && (forall t :: t in s.minted ==> t < s.nextToken)
    && (forall pid :: pid in s.evictions ==>
        s.evictions[pid] in s.minted && s.minted[s.evictions[pid]] == ForProject(pid))
    && (forall p :: p in s.loads + s.teardowns + s.cleanups ==> p.1 in s.minted)
  }

  /** A pending teardown of the current entry means that the entry is leaving. */
  ghost predicate TeardownsOk(s: State) {
    forall p :: p in s.teardowns && Owned(s, p.0, p.1) ==> s.entries[p.0].tearingDown
  }

  /** A load or cleanup still pending for the current entry means that the entry never became live. */
  ghost predicate PendingOk(s: State) {
    && s.loads !! s.cleanups
    && forall p :: p in s.loads + s.cleanups && Owned(s, p.0, p.1) ==> NeverLive(s.entries[p.0])
  }

  predicate NeverLive(e: Entry) {
    e.phase.Loading? || Leaving(e)
  }

  ghost predicate EntriesInv(s: State) {
    && TokensOk(s) && TeardownsOk(s) && PendingOk(s)
    && forall sid :: sid in s.entries ==> EntryOk(s, sid, s.entries[sid])
  }

  /** While a sweep goes on, every entry still evicting under its token is among those it has to come to. */
  ghost predicate SweepOk(s: State, sweep: Sweep) {
    && sweep.token in s.minted && (forall p :: p in sweep.todo ==> p.1 in s.minted)
    && (!sweep.done ==> forall sid :: sid in s.entries && Holding(s, sid, Evicting, sweep.token) ==>
          (sid, s.entries[sid].owner) in sweep.todo)
  }

  ghost predicate SweepsOk(s: State) {
    forall i :: 0 <= i < |s.sweeps| ==> SweepOk(s, s.sweeps[i])
  }

  /** The entry of a load that learned its project has one. */
  ghost predicate BoundOk(s: State) {
    forall p :: p in s.bound ==> p.1 in s.minted && (Owned(s, p.0, p.1) ==> s.entries[p.0].project.Some?)
  }

  ghost predicate Inv(s: State) {
    EntriesInv(s) && SweepsOk(s) && BoundOk(s)
  }

  /** The one call that does not keep the promise: a session's eviction cancelled with the token of
      its project's eviction while the manager still has the session. */
  predicate CancelsThroughProject(s: State, step: Step) {
    && step.CancelEviction? && step.hasLive && Holding(s, step.sid, Evicting, step.token)
    && s.entries[step.sid].project.Some? && s.entries[step.sid].project.value in s.evictions
  }

  /** An entry in order stays so while nothing minted is lost, no project eviction begins or ends, and its
      teardown stays pending. */
  lemma EntryStaysOk(s: State, t: State, sid: SessionId, e: Entry)
    requires EntryOk(s, sid, e) && MintedKept(s, t) && t.evictions == s.evictions
    requires (sid, e.owner) in s.teardowns ==> (sid, e.owner) in t.teardowns
    ensures EntryOk(t, sid, e)
  {
  }

  ghost predicate MintedKept(s: State, t: State) {
    forall k :: k in s.minted ==> k in t.minted && t.minted[k] == s.minted[k]
  }

  /** So do all entries that are neither touched nor torn down. */
  lemma EntriesStayOk(s: State, t: State, except: set<SessionId>)
    requires EntriesInv(s) && MintedKept(s, t) && t.evictions == s.evictions && s.teardowns <= t.teardowns
    requires forall k :: k in t.entries && k !in except ==> k in s.entries && t.entries[k] == s.entries[k]
    ensures forall k :: k in t.entries && k !in except ==> EntryOk(t, k, t.entries[k])
  {
    assert forall k :: k in s.entries ==> EntryOk(s, k, s.entries[k]);
    hide EntryOk, EntriesInv, MintedKept;
    forall k | k in t.entries && k !in except ensures EntryOk(t, k, t.entries[k]) {
      EntryStaysOk(s, t, k, t.entries[k]);
    }
  }

  /** A new or changed entry keeps the invariant when it is in order and its teardown, if pending,
      has marked it. */
  lemma PutKeepsInv(s: State, sid: SessionId, e: Entry)
    requires EntriesInv(s) && EntryOk(s, sid, e)
    requires (sid, e.owner) in s.teardowns ==> e.tearingDown
    requires (sid, e.owner) in s.loads + s.cleanups ==> NeverLive(e)
    ensures EntriesInv(Put(s, sid, e))
  {
    hide EntryOk;
    var t := Put(s, sid, e);
    EntryStaysOk(s, t, sid, e);
    EntriesStayOk(s, t, {sid});
  }

  lemma RemoveKeepsInv(s: State, sid: SessionId)
    requires EntriesInv(s)
    ensures EntriesInv(Remove(s, sid))
  {
    hide EntryOk;
    EntriesStayOk(s, Remove(s, sid), {});
  }

  lemma MintKeepsInv(s: State, purpose: Purpose)
    requires EntriesInv(s)
    ensures EntriesInv(Mint(s, purpose)) && s.nextToken !in s.minted
    ensures forall p :: p in s.loads + s.teardowns + s.cleanups ==> p.1 != s.nextToken
  {
    hide EntryOk;
    EntriesStayOk(s, Mint(s, purpose), {});
  }

  /** Adding or dropping suspended loads and cleanups concerns no entry. */
  lemma SuspendedKeepInv(s: State, loads: set<(SessionId, Token)>, cleanups: set<(SessionId, Token)>)
    requires EntriesInv(s) && loads !! cleanups && forall p :: p in loads + cleanups ==> p.1 in s.minted
    requires forall p :: p in loads + cleanups && Owned(s, p.0, p.1) ==> NeverLive(s.entries[p.0])
    ensures EntriesInv(s.(loads := loads, cleanups := cleanups))
  {
    hide EntryOk;
    EntriesStayOk(s, s.(loads := loads, cleanups := cleanups), {});
  }

  /** The entry being let go is leaving, and its teardown pending. */
  lemma ScheduledIsOk(s: State, sid: SessionId, owner: Token)
    requires sid in s.entries && EntryOk(s, sid, s.entries[sid])
    ensures sid in ScheduleTeardown(s, sid, owner).entries
    ensures EntryOk(ScheduleTeardown(s, sid, owner), sid, ScheduleTeardown(s, sid, owner).entries[sid])
  {
    hide Fenced, EvictedWithProject;
    EntryStaysFenced(s, ScheduleTeardown(s, sid, owner), s.entries[sid], ScheduleTeardown(s, sid, owner).entries[sid]);
  }

  /** An entry on its way out is fenced whatever its project. */
  lemma EntryStaysFenced(s: State, t: State, e: Entry, f: Entry)
    requires t.evictions == s.evictions && (Leaving(f) || f == e)
    ensures Fenced(s, e) ==> Fenced(t, f)
    ensures f == e ==> (EvictedWithProject(s, e) <==> EvictedWithProject(t, f))
  {
  }

  lemma ScheduleKeepsInv(s: State, sid: SessionId, owner: Token)
    requires EntriesInv(s) && owner in s.minted
    ensures EntriesInv(ScheduleTeardown(s, sid, owner))
  {
    hide EntryOk;
    var t := ScheduleTeardown(s, sid, owner);
    EntriesStayOk(s, t, {sid});
    if sid in s.entries {
      ScheduledIsOk(s, sid, owner);
    }
    assert TokensOk(t) by {
      hide TeardownsOk, PendingOk;
    }
    assert TeardownsOk(t) && PendingOk(t) by {
      hide TokensOk;
    }
    hide TokensOk, TeardownsOk, PendingOk;
  }

  lemma SettleKeepsInv(s: State, sid: SessionId, hasLive: bool)
    requires EntriesInv(s) && sid in s.entries && !NeverLive(s.entries[sid])
    requires hasLive ==> s.entries[sid].project.None? || s.entries[sid].project.value !in s.evictions
    ensures EntriesInv(Settle(s, sid, hasLive))
  {
    assert EntryOk(s, sid, s.entries[sid]);
    if hasLive {
      PutKeepsInv(s, sid, s.entries[sid].(phase := Live, operation := None));
    } else {
      RemoveKeepsInv(s, sid);
    }
  }

  lemma MarkedIsOk(s: State, pid: ProjectId, idleSessions: set<SessionId>, k: SessionId)
    requires EntriesInv(s) && ProjectIdle(s, pid, idleSessions) && k in s.entries
    ensures var t := Apply(s, ReserveProject(pid, idleSessions));
            k in t.entries && EntryOk(t, k, t.entries[k])
  {
    var e := s.entries[k];
    assert EntryOk(s, k, e) && TokensOk(s);
    hide EntriesInv;
  }

  lemma ProjectReserved(s: State, pid: ProjectId, idleSessions: set<SessionId>)
    requires EntriesInv(s) && ProjectIdle(s, pid, idleSessions)
    ensures EntriesInv(Apply(s, ReserveProject(pid, idleSessions)))
  {
    hide EntryOk, NewSessionStep, LoadStep, MutationStep, EvictionStep, SweepStep, TeardownStep;
    var t := Apply(s, ReserveProject(pid, idleSessions));
    forall k | k in t.entries ensures EntryOk(t, k, t.entries[k]) {
      MarkedIsOk(s, pid, idleSessions, k);
    }
    MintKeepsInv(s, ForProject(pid));
    hide ProjectIdle;
  }

  lemma UnmarkedIsOk(s: State, pid: ProjectId, token: Token, k: SessionId)
    requires EntriesInv(s) && k in s.entries
    ensures k in Apply(s, CancelProject(pid, token)).entries
    ensures EntryOk(Apply(s, CancelProject(pid, token)), k, Apply(s, CancelProject(pid, token)).entries[k])
  {
    assert EntryOk(s, k, s.entries[k]) && TokensOk(s);
    hide EntriesInv;
  }

  lemma ProjectCancelled(s: State, pid: ProjectId, token: Token)
    requires EntriesInv(s)
    ensures EntriesInv(Apply(s, CancelProject(pid, token)))
  {
    var t := Apply(s, CancelProject(pid, token));
    hide EntryOk;
    forall k | k in t.entries ensures EntryOk(t, k, t.entries[k]) {
      UnmarkedIsOk(s, pid, token, k);
    }
  }

  /** An entry that does not evict under the token of a sweep does not mind its end. */
  lemma UnsweptIsOk(s: State, i: nat, k: SessionId)
    requires EntriesInv(s) && i < |s.sweeps| && k in s.entries && !Holding(s, k, Evicting, s.sweeps[i].token)
    ensures k in Apply(s, SweepFinish(i)).entries
    ensures EntryOk(Apply(s, SweepFinish(i)), k, Apply(s, SweepFinish(i)).entries[k])
  {
    assert EntryOk(s, k, s.entries[k]);
    hide EntriesInv;
  }

  /** A sweep that has come to all its entries leaves none evicting, and so the project can be let go. */
  lemma ProjectEvicted(s: State, i: nat)
    requires EntriesInv(s) && SweepsOk(s) && Enabled(s, SweepFinish(i))
    ensures EntriesInv(Apply(s, SweepFinish(i)))
  {
    hide EntryOk;
    var t := Apply(s, SweepFinish(i));
    assert SweepOk(s, s.sweeps[i]);
    forall k | k in t.entries ensures EntryOk(t, k, t.entries[k]) {
      UnsweptIsOk(s, i, k);
    }
  }

  /** Sweeps and bound loads concern no entry. */
  lemma BesideEntries(s: State, bound: set<(SessionId, Token)>, sweeps: seq<Sweep>)
    requires EntriesInv(s)
    ensures EntriesInv(s.(bound := bound, sweeps := sweeps))
  {
    hide EntryOk;
    EntriesStayOk(s, s.(bound := bound, sweeps := sweeps), {});
  }

  lemma SurvivorIsOk(s: State, sid: SessionId, owner: Token, k: SessionId)
    requires EntriesInv(s) && k in Apply(s, TeardownFinish(sid, owner)).entries
    ensures EntryOk(Apply(s, TeardownFinish(sid, owner)), k, Apply(s, TeardownFinish(sid, owner)).entries[k])
  {
    assert EntryOk(s, k, s.entries[k]);
    hide EntriesInv;
  }

  lemma TornDown(s: State, sid: SessionId, owner: Token)
    requires EntriesInv(s)
    ensures EntriesInv(Apply(s, TeardownFinish(sid, owner)))
  {
    var t := Apply(s, TeardownFinish(sid, owner));
    hide EntryOk;
    forall k | k in t.entries ensures EntryOk(t, k, t.entries[k]) {
      SurvivorIsOk(s, sid, owner, k);
    }
  }

  /** What a mutation or an eviction settles is no load, and live again only where its project is not evicted. */
  lemma HeldIsSettled(s: State, sid: SessionId, phase: Phase, token: Token, hasLive: bool)
    requires EntriesInv(s) && Holding(s, sid, phase, token) && phase in {Mutating, Evicting}
    requires phase.Evicting? && hasLive ==>
               s.entries[sid].project.None? || s.entries[sid].project.value !in s.evictions
    ensures EntriesInv(Settle(s, sid, hasLive))
  {
    assert EntryOk(s, sid, s.entries[sid]);
    hide EntriesInv;
    SettleKeepsInv(s, sid, hasLive);
  }

  lemma OwnEntryScheduled(s: State, sid: SessionId)
    requires EntriesInv(s) && sid in s.entries
    ensures EntriesInv(ScheduleTeardown(s, sid, s.entries[sid].owner))
  {
    assert EntryOk(s, sid, s.entries[sid]);
    hide EntriesInv;
    ScheduleKeepsInv(s, sid, s.entries[sid].owner);
  }

  lemma SweepNextKeepsInv(s: State, i: nat, entry: (SessionId, Token))
    requires EntriesInv(s) && SweepsOk(s) && Enabled(s, SweepNext(i, entry))
    ensures EntriesInv(Apply(s, SweepNext(i, entry)))
  {
    assert SweepOk(s, s.sweeps[i]);
    hide EntriesInv;
    ScheduleKeepsInv(s, entry.0, entry.1);
    BesideEntries(ScheduleTeardown(s, entry.0, entry.1), s.bound, Apply(s, SweepNext(i, entry)).sweeps);
  }

  lemma CleanupKeepsInv(s: State, sid: SessionId, owner: Token)
    requires EntriesInv(s)
    ensures EntriesInv(Apply(s, CleanupFinish(sid, owner)))
  {
    RemoveKeepsInv(s, sid);
    SuspendedKeepInv(Remove(s, sid), s.loads, s.cleanups - {(sid, owner)});
  }

  lemma StepKeepsEntries(s: State, step: Step)
    requires Inv(s) && Enabled(s, step) && !CancelsThroughProject(s, step)
    ensures EntriesInv(Apply(s, step))
  {
    hide EntriesInv, SweepsOk, BoundOk, ScheduleTeardown, Settle, ProjectIdle, Collected, EvictLive, RestoreLive;
    match step
    case ReserveNew(sid, pid, request) => NewEntryKeepsInv(s, step);
    case AdoptNew(sid, pid, owner) => AdoptionKeepsInv(s, step);
    case ReleaseOwned(sid, owner) =>
      if Owned(s, sid, owner) {
        OwnEntryScheduled(s, sid);
      }
    case EnsureLoaded(sid) => NewEntryKeepsInv(s, step);
    case LoadBind(sid, owner, pid) => LoadBindKeepsInv(s, step);
    case LoadFinish(sid, owner, same) => LoadFinishKeepsInv(s, step);
    case LoadFail(sid, owner, hasLive) => LoadFailKeepsInv(s, sid, owner, hasLive);
    case CleanupFinish(sid, owner) => CleanupKeepsInv(s, sid, owner);
    case ReserveMutation(sid, idle) =>
      if idle && LiveOrAbsent(s, sid) {
        MutationReserved(s, sid);
      }
    case BindMutation(sid, token, pid) => BindMutationKeepsInv(s, step);
    case ReleaseMutation(sid, token, hasLive) =>
      if Holding(s, sid, Mutating, token) {
        HeldIsSettled(s, sid, Mutating, token, hasLive);
      }
    case ReserveEviction(sid, idle) =>
      if idle && LiveOrAbsent(s, sid) {
        EvictionReserved(s, sid);
      }
    case CancelEviction(sid, token, hasLive) =>
      if Holding(s, sid, Evicting, token) {
        HeldIsSettled(s, sid, Evicting, token, hasLive);
      }
    case ReleaseSession(sid, maybe, idle) =>
      if sid in s.entries {
        OwnEntryScheduled(s, sid);
      }
    case ReserveProject(pid, idleSessions) =>
      if ProjectIdle(s, pid, idleSessions) {
        ProjectReserved(s, pid, idleSessions);
      }
    case CancelProject(pid, token) => ProjectCancelled(s, pid, token);
    case SweepStart(pid, token) => BesideEntries(s, s.bound, Apply(s, step).sweeps);
    case SweepNext(i, entry) => SweepNextKeepsInv(s, i, entry);
    case SweepFinish(i) => ProjectEvicted(s, i);
    case Invalidate(sid) =>
      if sid in s.entries {
        InvalidateKeepsInv(s, sid);
      }
    case TeardownFinish(sid, owner) => TornDown(s, sid, owner);
  }

  lemma NewEntryKeepsInv(s: State, step: Step)
    requires EntriesInv(s) && (step.ReserveNew? || step.EnsureLoaded?)
    ensures EntriesInv(Apply(s, step))
  {
    hide EntriesInv, EntryOk, LoadStep, MutationStep, EvictionStep, ProjectStep, SweepStep, TeardownStep;
    if Apply(s, step) != s {
      FreshEntryKeepsInv(s, step);
    }
  }

  /** The entry that a step makes under a token never seen before. */
  function FreshEntry(s: State, step: Step): Entry
    requires step.ReserveNew? || step.EnsureLoaded?
  {
    if step.ReserveNew? then Entry(Reserved, s.nextToken, Some(step.request), Some(step.pid), None, false)
    else Entry(Loading, s.nextToken, None, None, None, false)
  }

  lemma FreshEntryKeepsInv(s: State, step: Step)
    requires EntriesInv(s) && (step.ReserveNew? || step.EnsureLoaded?)
    requires step.ReserveNew? ==> step.pid !in s.evictions
    ensures var t := Put(Mint(s, ForOwner(step.sid)), step.sid, FreshEntry(s, step));
            && EntriesInv(t)
            && (step.EnsureLoaded? ==> EntriesInv(t.(loads := s.loads + {(step.sid, s.nextToken)})))
  {
    var m := Mint(s, ForOwner(step.sid));
    MintKeepsInv(s, ForOwner(step.sid));
    assert EntryOk(m, step.sid, FreshEntry(s, step));
    hide EntryOk;
    PutKeepsInv(m, step.sid, FreshEntry(s, step));
    if step.EnsureLoaded? {
      SuspendedKeepInv(Put(m, step.sid, FreshEntry(s, step)), s.loads + {(step.sid, s.nextToken)}, s.cleanups);
    }
  }

  /** A live entry is taken under a new token. */
  lemma LiveTaken(s: State, sid: SessionId, phase: Phase, purpose: Purpose)
    requires EntriesInv(s) && sid in s.entries && s.entries[sid].phase.Live?
    requires (phase.Mutating? && purpose == ForMutation(sid)) || (phase.Evicting? && purpose == ForEviction(sid))
    ensures EntriesInv(Put(Mint(s, purpose), sid, s.entries[sid].(phase := phase, operation := Some(s.nextToken))))
  {
    var e := s.entries[sid].(phase := phase, operation := Some(s.nextToken));
    assert EntryOk(s, sid, s.entries[sid]);
    assert EntryOk(Mint(s, purpose), sid, e) by {
      hide EntriesInv;
    }
    hide EntryOk;
    MintKeepsInv(s, purpose);
    PutKeepsInv(Mint(s, purpose), sid, e);
  }

  lemma MutationReserved(s: State, sid: SessionId)
    requires EntriesInv(s) && LiveOrAbsent(s, sid)
    ensures EntriesInv(Apply(s, ReserveMutation(sid, true)))
  {
    hide EntryOk, EntriesInv;
    if sid in s.entries {
      LiveTaken(s, sid, Mutating, ForMutation(sid));
    } else {
      MintKeepsInv(s, ForMutation(sid));
      UnboundMutation(Mint(s, ForMutation(sid)), sid, s.nextToken);
    }
  }

  lemma EvictionReserved(s: State, sid: SessionId)
    requires EntriesInv(s) && LiveOrAbsent(s, sid)
    ensures EntriesInv(Apply(s, ReserveEviction(sid, true)))
  {
    hide EntryOk;
    if sid in s.entries {
      hide EntriesInv;
      LiveTaken(s, sid, Evicting, ForEviction(sid));
    } else {
      UnboundEviction(s, sid);
    }
  }

  lemma UnboundEviction(s: State, sid: SessionId)
    requires EntriesInv(s)
    ensures EntriesInv(Put(Mint(s, ForEviction(sid)), sid,
                           Entry(Evicting, s.nextToken, None, None, Some(s.nextToken), false)))
  {
    MintKeepsInv(s, ForEviction(sid));
    PutKeepsInv(Mint(s, ForEviction(sid)), sid, Entry(Evicting, s.nextToken, None, None, Some(s.nextToken), false));
  }

  lemma UnboundMutation(s: State, sid: SessionId, token: Token)
    requires EntriesInv(s) && token in s.minted && s.minted[token] == ForMutation(sid)
    ensures EntriesInv(Mint(Put(s, sid, Entry(Mutating, s.nextToken, None, None, Some(token), false)), ForOwner(sid)))
  {
    MintKeepsInv(s, ForOwner(sid));
    PutKeepsInv(Mint(s, ForOwner(sid)), sid, Entry(Mutating, s.nextToken, None, None, Some(token), false));
  }

  lemma AdoptionKeepsInv(s: State, step: Step)
    requires EntriesInv(s) && step.AdoptNew?
    ensures EntriesInv(Apply(s, step))
  {
    if Apply(s, step) != s {
      assert EntryOk(s, step.sid, s.entries[step.sid]);
      PutKeepsInv(s, step.sid, s.entries[step.sid].(phase := Live, request := None));
    }
  }

  lemma LoadBindKeepsInv(s: State, step: Step)
    requires EntriesInv(s) && step.LoadBind?
    ensures EntriesInv(Apply(s, step))
  {
    if Apply(s, step) != s {
      assert EntryOk(s, step.sid, s.entries[step.sid]);
      var e := s.entries[step.sid].(project := Some(step.pid));
      PutKeepsInv(s, step.sid, e);
      hide EntriesInv, EntryOk;
      BesideEntries(Put(s, step.sid, e), s.bound + {(step.sid, step.owner)}, s.sweeps);
    }
  }

  lemma LoadFinishKeepsInv(s: State, step: Step)
    requires EntriesInv(s) && step.LoadFinish? && Enabled(s, step)
    ensures EntriesInv(Apply(s, step))
  {
    if Apply(s, step) != s {
      assert EntryOk(s, step.sid, s.entries[step.sid]);
      var rest := s.(loads := s.loads - {(step.sid, step.owner)});
      SuspendedKeepInv(s, rest.loads, s.cleanups);
      PutKeepsInv(rest, step.sid, s.entries[step.sid].(phase := Live));
    }
  }

  lemma BindMutationKeepsInv(s: State, step: Step)
    requires EntriesInv(s) && step.BindMutation?
    ensures EntriesInv(Apply(s, step))
  {
    if Apply(s, step) != s {
      assert EntryOk(s, step.sid, s.entries[step.sid]);
      PutKeepsInv(s, step.sid, s.entries[step.sid].(project := Some(step.pid)));
    }
  }

  lemma LoadFailKeepsInv(s: State, sid: SessionId, owner: Token, hasLive: bool)
    requires EntriesInv(s) && (sid, owner) in s.loads
    ensures EntriesInv(Apply(s, LoadFail(sid, owner, hasLive)))
  {
    var p := (sid, owner);
    assert p in s.loads + s.cleanups && p in s.loads + s.teardowns + s.cleanups;
    if Owned(s, sid, owner) && hasLive {
      assert NeverLive(s.entries[sid]);
      SuspendedKeepInv(s, s.loads - {p}, s.cleanups + {p});
    } else {
      SuspendedKeepInv(s, s.loads - {p}, s.cleanups);
      RemoveKeepsInv(s.(loads := s.loads - {p}), sid);
    }
  }

  lemma InvalidatedIsOk(s: State, sid: SessionId)
    requires EntriesInv(s) && sid in s.entries
    ensures sid in Apply(s, Invalidate(sid)).entries
    ensures EntryOk(Apply(s, Invalidate(sid)), sid, Apply(s, Invalidate(sid)).entries[sid])
    ensures Leaving(Apply(s, Invalidate(sid)).entries[sid]) && Apply(s, Invalidate(sid)).entries[sid].tearingDown
    ensures s.entries[sid].owner in s.minted
  {
    assert EntryOk(s, sid, s.entries[sid]);
    hide EntriesInv;
  }

  lemma InvalidateKeepsInv(s: State, sid: SessionId)
    requires EntriesInv(s) && sid in s.entries
    ensures EntriesInv(Apply(s, Invalidate(sid)))
  {
    hide EntryOk, NewSessionStep, LoadStep, MutationStep, EvictionStep, ProjectStep, SweepStep;
    var t := Apply(s, Invalidate(sid));
    EntriesStayOk(s, t, {sid});
    InvalidatedIsOk(s, sid);
    assert TokensOk(t) by {
      hide TeardownsOk, PendingOk;
    }
    assert TeardownsOk(t) && PendingOk(t) by {
      hide TokensOk;
    }
    hide TokensOk, TeardownsOk, PendingOk;
  }

  /** What one entry may become: a new one; or its owner stays, its project is not forgotten, it does not come
      back from leaving, and it gets no token minted before. */
  predicate MayBecome(s: State, sid: SessionId, f: Entry) {
    if sid in s.entries then Follows(s.entries[sid], f, s.nextToken)
    else f.owner >= s.nextToken && (f.operation.Some? ==> f.operation.value >= s.nextToken)
  }

  predicate Follows(e: Entry, f: Entry, nextToken: Token) {
    && f.owner == e.owner
    && (e.project.Some? ==> f.project.Some?)
    && (Leaving(e) ==> Leaving(f))
    && (f.operation == e.operation || f.operation.None? || f.operation.value >= nextToken)
    && (f.phase.Evicting? ==>
          (e.phase.Evicting? && f.operation == e.operation) || (f.operation.Some? && f.operation.value >= nextToken))
  }

  /** Tokens are only added, and a project is evicted under the token it was or under a new one. */
  ghost predicate TokensFollow(s: State, t: State) {
    && t.nextToken >= s.nextToken && MintedKept(s, t) && s.minted.Keys <= t.minted.Keys
    && forall pid :: pid in t.evictions ==>
         (pid in s.evictions && t.evictions[pid] == s.evictions[pid]) || t.evictions[pid] == s.nextToken
  }

  /** Tokens are below the next one. */
  ghost predicate TokensBelow(s: State) {
    forall k :: k in s.minted ==> k < s.nextToken
  }

  /** The effect of a step on any one entry and on the tokens. */
  ghost predicate StepFollows(s: State, t: State, sid: SessionId) {
    TokensFollow(s, t) && (sid in t.entries ==> MayBecome(s, sid, t.entries[sid]))
  }

  lemma NewSessionStepFollows(s: State, step: Step, sid: SessionId)
    requires OfNewSession(step) && TokensBelow(s)
    ensures StepFollows(s, Apply(s, step), sid)
  {
    hide LoadStep, MutationStep, EvictionStep, ProjectStep, SweepStep, TeardownStep,
         Settle, EvictLive, RestoreLive, ProjectIdle, Collected;
  }

  lemma LoadStepFollows(s: State, step: Step, sid: SessionId)
    requires OfLoad(step) && TokensBelow(s)
    ensures StepFollows(s, Apply(s, step), sid)
  {
    hide NewSessionStep, MutationStep, EvictionStep, ProjectStep, SweepStep, TeardownStep,
         Settle, ScheduleTeardown, Mint, EvictLive, RestoreLive, ProjectIdle, Collected;
  }

  lemma MutationStepFollows(s: State, step: Step, sid: SessionId)
    requires OfMutation(step) && TokensBelow(s)
    ensures StepFollows(s, Apply(s, step), sid)
  {
    hide NewSessionStep, LoadStep, EvictionStep, ProjectStep, SweepStep, TeardownStep,
         ScheduleTeardown, EvictLive, RestoreLive, ProjectIdle, Collected;
  }

  lemma EvictionStepFollows(s: State, step: Step, sid: SessionId)
    requires OfEviction(step) && TokensBelow(s)
    ensures StepFollows(s, Apply(s, step), sid)
  {
    hide NewSessionStep, LoadStep, MutationStep, ProjectStep, SweepStep, TeardownStep, ScheduleTeardown;
    if step.ReleaseSession? && step.sid in s.entries {
      ScheduleFollows(s, step.sid, s.entries[step.sid].owner, sid);
    }
  }

  lemma ProjectStepFollows(s: State, step: Step, sid: SessionId)
    requires OfProject(step) && TokensBelow(s)
    ensures StepFollows(s, Apply(s, step), sid)
  {
    hide NewSessionStep, LoadStep, MutationStep, EvictionStep, SweepStep, TeardownStep,
         ScheduleTeardown, Settle, ProjectIdle, Collected, Put, Remove;
  }

  lemma SweepStepFollows(s: State, step: Step, sid: SessionId)
    requires OfSweep(step) && TokensBelow(s)
    ensures StepFollows(s, Apply(s, step), sid)
  {
    hide NewSessionStep, LoadStep, MutationStep, EvictionStep, ProjectStep, TeardownStep, ScheduleTeardown, Collected;
    if step.SweepNext? {
      ScheduleFollows(s, step.entry.0, step.entry.1, sid);
    }
  }

  lemma ScheduleFollows(s: State, k: SessionId, owner: Token, sid: SessionId)
    ensures var t := ScheduleTeardown(s, k, owner);
            && t.minted == s.minted && t.nextToken == s.nextToken && t.evictions == s.evictions
            && (sid in t.entries ==> MayBecome(s, sid, t.entries[sid]))
  {
  }

  lemma TeardownStepFollows(s: State, step: Step, sid: SessionId)
    requires OfTeardown(step) && TokensBelow(s)
    ensures StepFollows(s, Apply(s, step), sid)
  {
    hide NewSessionStep, LoadStep, MutationStep, EvictionStep, ProjectStep, SweepStep,
         Settle, Mint, EvictLive, RestoreLive, ProjectIdle, Collected;
  }

  lemma AnyStepFollows(s: State, step: Step, sid: SessionId)
    requires TokensBelow(s)
    ensures StepFollows(s, Apply(s, step), sid)
  {
    hide Apply, StepFollows, TokensBelow;
    if OfNewSession(step) {
      NewSessionStepFollows(s, step, sid);
    } else if OfLoad(step) {
      LoadStepFollows(s, step, sid);
    } else if OfMutation(step) {
      MutationStepFollows(s, step, sid);
    } else if OfEviction(step) {
      EvictionStepFollows(s, step, sid);
    } else if OfProject(step) {
      ProjectStepFollows(s, step, sid);
    } else if OfSweep(step) {
      SweepStepFollows(s, step, sid);
    } else {
      TeardownStepFollows(s, step, sid);
    }
  }

  /** Whoever evicts under an old token did so before, as the same entry. */
  lemma EvictingOrigin(s: State, step: Step, sid: SessionId, token: Token)
    requires TokensBelow(s) && token < s.nextToken && Holding(Apply(s, step), sid, Evicting, token)
    ensures Holding(s, sid, Evicting, token) && s.entries[sid].owner == Apply(s, step).entries[sid].owner
  {
    AnyStepFollows(s, step, sid);
    hide Apply, TokensFollow;
  }

  /** A step gives an old token to nobody, and no leaving entry comes back. */
  lemma OperationOrigin(s: State, step: Step, sid: SessionId, token: Token)
    requires TokensBelow(s) && token < s.nextToken
    requires sid in Apply(s, step).entries && Apply(s, step).entries[sid].operation == Some(token)
    ensures sid in s.entries && s.entries[sid].operation == Some(token)
    ensures Leaving(s.entries[sid]) ==> Leaving(Apply(s, step).entries[sid])
  {
    AnyStepFollows(s, step, sid);
    hide Apply, TokensFollow;
  }

  lemma OwnerOrigin(s: State, step: Step, sid: SessionId)
    requires TokensBelow(s) && sid in Apply(s, step).entries
    ensures if sid in s.entries then Apply(s, step).entries[sid].owner == s.entries[sid].owner
            else Apply(s, step).entries[sid].owner >= s.nextToken
  {
    AnyStepFollows(s, step, sid);
    hide Apply, TokensFollow;
  }

  /** An entry never forgets its project. */
  lemma ProjectStays(s: State, step: Step, sid: SessionId)
    requires TokensBelow(s) && sid in Apply(s, step).entries && sid in s.entries && s.entries[sid].project.Some?
    ensures Apply(s, step).entries[sid].project.Some?
  {
    AnyStepFollows(s, step, sid);
    hide Apply, TokensFollow;
  }

  lemma TokensGrow(s: State, step: Step)
    requires TokensBelow(s)
    ensures TokensFollow(s, Apply(s, step))
  {
    AnyStepFollows(s, step, 0);
    hide Apply, TokensFollow;
  }

  /** What a sweep collects is all that evicts under its token. */
  lemma CollectedIsAll(s: State, pid: ProjectId, token: Token)
    requires EntriesInv(s) && pid in s.evictions && s.evictions[pid] == token
    ensures token in s.minted && forall p :: p in Collected(s, pid, token) ==> p.1 in s.minted
    ensures forall sid :: sid in s.entries && Holding(s, sid, Evicting, token) ==>
        (sid, s.entries[sid].owner) in Collected(s, pid, token)
  {
    forall sid | sid in s.entries ensures EntryOk(s, sid, s.entries[sid]) {
    }
  }

  lemma SweepStays(s: State, step: Step, sweep: Sweep)
    requires EntriesInv(s) && SweepOk(s, sweep)
    ensures SweepOk(Apply(s, step), sweep)
  {
    var t := Apply(s, step);
    assert TokensBelow(s) && sweep.token < s.nextToken;
    TokensGrow(s, step);
    hide Apply, EntriesInv, Holding, TokensBelow;
    forall sid | sid in t.entries && Holding(t, sid, Evicting, sweep.token)
      ensures !sweep.done ==> (sid, t.entries[sid].owner) in sweep.todo
    {
      EvictingOrigin(s, step, sid, sweep.token);
      HoldingIsThere(s, sid, Evicting, sweep.token);
    }
  }

  lemma HoldingIsThere(s: State, sid: SessionId, phase: Phase, token: Token)
    requires Holding(s, sid, phase, token)
    ensures sid in s.entries && s.entries[sid].phase == phase && s.entries[sid].operation == Some(token)
  {
  }

  /** Coming to an entry takes it from the eviction for good. */
  lemma SweptIsLeaving(s: State, i: nat, entry: (SessionId, Token))
    requires EntriesInv(s) && i < |s.sweeps|
    ensures var t := Apply(s, SweepNext(i, entry));
            Owned(t, entry.0, entry.1) ==> !Holding(t, entry.0, Evicting, s.sweeps[i].token)
  {
    assert entry.0 in s.entries ==> EntryOk(s, entry.0, s.entries[entry.0]);
  }

  function SweepsAfter(s: State, step: Step): seq<Sweep> {
    match step
    case SweepStart(pid, token) =>
      if pid in s.evictions && s.evictions[pid] == token
      then s.sweeps + [Sweep(pid, token, Collected(s, pid, token), None, false)] else s.sweeps
    case SweepNext(i, entry) =>
      if i >= |s.sweeps| then s.sweeps
      else s.sweeps[i := s.sweeps[i].(todo := s.sweeps[i].todo - {entry}, awaited := Some(entry))]
    case SweepFinish(i) => if i >= |s.sweeps| then s.sweeps else s.sweeps[i := s.sweeps[i].(done := true)]
    case _ => s.sweeps
  }

  /** No other step touches a sweep, and none but one the bound loads. */
  ghost predicate BesideFollows(s: State, t: State, step: Step) {
    t.sweeps == SweepsAfter(s, step) && (!step.LoadBind? ==> t.bound == s.bound)
  }

  lemma StepsBesideSweeps(s: State, step: Step)
    requires OfNewSession(step) || OfMutation(step) || OfEviction(step)
    ensures BesideFollows(s, Apply(s, step), step)
  {
    hide LoadStep, ProjectStep, SweepStep, TeardownStep, Collected, Owned, Holding, LiveOrAbsent;
  }

  lemma OtherStepsBesideSweeps(s: State, step: Step)
    requires !OfNewSession(step) && !OfMutation(step) && !OfEviction(step)
    ensures BesideFollows(s, Apply(s, step), step)
  {
    hide NewSessionStep, MutationStep, EvictionStep, Collected, ProjectIdle, EvictLive, RestoreLive, Owned;
  }

  lemma AnyStepBesideSweeps(s: State, step: Step)
    ensures BesideFollows(s, Apply(s, step), step)
  {
    hide Apply, BesideFollows;
    if OfNewSession(step) || OfMutation(step) || OfEviction(step) {
      StepsBesideSweeps(s, step);
    } else {
      OtherStepsBesideSweeps(s, step);
    }
  }

  lemma StepKeepsSweeps(s: State, step: Step)
    requires Inv(s) && Enabled(s, step)
    ensures SweepsOk(Apply(s, step))
  {
    hide EntriesInv, BoundOk, Apply, Collected;
    var t := Apply(s, step);
    AnyStepBesideSweeps(s, step);
    assert forall i :: 0 <= i < |s.sweeps| ==> SweepOk(s, s.sweeps[i]);
    forall i | 0 <= i < |t.sweeps| ensures SweepOk(t, t.sweeps[i]) {
      if i < |s.sweeps| {
        SweepStays(s, step, s.sweeps[i]);
        if step.SweepNext? && step.i == i {
          SweptIsLeaving(s, i, step.entry);
        }
      } else {
        CollectedIsAll(s, step.pid, step.token);
        NewSweepOk(s, step.pid, step.token);
      }
    }
  }

  lemma NewSweepOk(s: State, pid: ProjectId, token: Token)
    requires EntriesInv(s) && pid in s.evictions && s.evictions[pid] == token
    ensures SweepOk(Apply(s, SweepStart(pid, token)), Sweep(pid, token, Collected(s, pid, token), None, false))
  {
    CollectedIsAll(s, pid, token);
    hide Collected;
  }

  /** A load joins the bound ones as it gives its entry a project. */
  lemma BoundOrigin(s: State, step: Step)
    requires EntriesInv(s) && Enabled(s, step)
    ensures var t := Apply(s, step);
            forall p :: p in t.bound && p !in s.bound ==>
              p in s.loads && p.1 in s.minted && Owned(t, p.0, p.1) && t.entries[p.0].project.Some?
  {
    if step.LoadBind? {
      assert (step.sid, step.owner) in s.loads + s.teardowns + s.cleanups;
    } else {
      AnyStepBesideSweeps(s, step);
    }
    hide EntriesInv, Settle, ScheduleTeardown, EvictLive, RestoreLive, ProjectIdle, Collected;
  }

  lemma StepKeepsBound(s: State, step: Step)
    requires Inv(s) && Enabled(s, step)
    ensures BoundOk(Apply(s, step))
  {
    var t := Apply(s, step);
    assert TokensBelow(s);
    TokensGrow(s, step);
    BoundOrigin(s, step);
    assert forall p :: p in s.loads ==> p in s.loads + s.teardowns + s.cleanups;
    hide Apply, EntriesInv, SweepsOk, TokensBelow;
    forall p | p in t.bound ensures p.1 in t.minted && (Owned(t, p.0, p.1) ==> t.entries[p.0].project.Some?) {
      if p in s.bound && Owned(t, p.0, p.1) {
        OwnerOrigin(s, step, p.0);
        ProjectStays(s, step, p.0);
      }
    }
  }

  /** Every step but the named one keeps the invariant. */
  lemma StepKeepsInv(s: State, step: Step)
    requires Inv(s) && Enabled(s, step) && !CancelsThroughProject(s, step)
    ensures Inv(Apply(s, step))
  {
    hide Apply, EntriesInv, SweepsOk, BoundOk, Enabled;
    StepKeepsEntries(s, step);
    StepKeepsSweeps(s, step);
    StepKeepsBound(s, step);
  }

  /** A load becomes live with a project. */
  lemma LoadedHasProject(s: State, sid: SessionId, owner: Token, same: bool)
    requires Inv(s) && Enabled(s, LoadFinish(sid, owner, same)) && Owned(s, sid, owner)
    ensures Owned(Apply(s, LoadFinish(sid, owner, same)), sid, owner)
    ensures Apply(s, LoadFinish(sid, owner, same)).entries[sid].project.Some?
  {
    assert (sid, owner) in s.bound;
  }

  /** The promise holds after a step exactly when the step is not the named one. */
  lemma PromiseKeptExactly(s: State, step: Step)
    requires Inv(s) && Enabled(s, step)
    ensures Inv(Apply(s, step)) <==> !CancelsThroughProject(s, step)
  {
    if CancelsThroughProject(s, step) {
      var t := Apply(s, step);
      assert EntryOk(s, step.sid, s.entries[step.sid]);
      assert !Fenced(t, t.entries[step.sid]);
    } else {
      StepKeepsInv(s, step);
    }
  }

  function After(s: State, steps: seq<Step>): State
    decreases |steps|
  {
    if steps == [] then s else After(Apply(s, steps[0]), steps[1..])
  }

  /** An interleaving of enabled steps in which no caller makes the named call. */
  ghost predicate Interleaving(s: State, steps: seq<Step>)
    decreases |steps|
  {
    steps == [] ||
    (Enabled(s, steps[0]) && !CancelsThroughProject(s, steps[0]) && Interleaving(Apply(s, steps[0]), steps[1..]))
  }

  lemma {:induction false} InterleavingsKeepInv(s: State, steps: seq<Step>)
    requires Inv(s) && Interleaving(s, steps)
    ensures Inv(After(s, steps))
    decreases |steps|
  {
    if steps != [] {
      StepKeepsInv(s, steps[0]);
      InterleavingsKeepInv(Apply(s, steps[0]), steps[1..]);
    }
  }

  /** Over all interleavings: while a project holds an eviction token, every entry bound to it is
      evicting under that very token, releasing or invalid. */
  lemma EvictionFencesProject(steps: seq<Step>, sid: SessionId, pid: ProjectId)
    requires Interleaving(EMPTY, steps)
    requires pid in After(EMPTY, steps).evictions
    requires sid in After(EMPTY, steps).entries && After(EMPTY, steps).entries[sid].project == Some(pid)
    ensures var s := After(EMPTY, steps);
            || s.entries[sid].phase in {Releasing, Invalid}
            || Holding(s, sid, Evicting, s.evictions[pid])
  {
    assert Inv(EMPTY);
    InterleavingsKeepInv(EMPTY, steps);
    assert EntryOk(After(EMPTY, steps), sid, After(EMPTY, steps).entries[sid]);
  }

  /** A token that no reservation and no project eviction holds any more. */
  ghost predicate Spent(s: State, token: Token) {
    && token in s.minted
    && (forall pid :: pid in s.evictions ==> s.evictions[pid] != token)
    && (forall sid :: sid in s.entries && s.entries[sid].operation == Some(token) ==> Leaving(s.entries[sid]))
  }

  /** No reservation answers to a spent token. */
  lemma SpentHoldsNothing(s: State, token: Token, sid: SessionId)
    requires Spent(s, token)
    ensures !Holding(s, sid, Mutating, token) && !Holding(s, sid, Evicting, token)
  {
  }

  /** Every call made with a spent token changes nothing. */
  lemma SpentTokensAreInert(s: State, token: Token, sid: SessionId, pid: ProjectId, b: bool)
    requires Inv(s) && Spent(s, token)
    ensures Apply(s, ReleaseMutation(sid, token, b)) == s && Apply(s, BindMutation(sid, token, pid)) == s
    ensures Apply(s, CancelEviction(sid, token, b)) == s && Apply(s, ReleaseSession(sid, Some(token), b)) == s
    ensures Apply(s, CancelProject(pid, token)) == s && Apply(s, SweepStart(pid, token)) == s
  {
    SpentHoldsNothing(s, token, sid);
    hide Inv, Holding;
  }

  /** The call acts on what the token holds, and gives it up. */
  predicate GivesUp(s: State, step: Step, token: Token) {
    match step
    case ReleaseMutation(sid, t, _) => t == token && Holding(s, sid, Mutating, token)
    case CancelEviction(sid, t, _) =>
      && t == token && Holding(s, sid, Evicting, token)
      && token in s.minted && s.minted[token] == ForEviction(sid)
    case ReleaseSession(sid, maybe, _) =>
      && maybe == Some(token) && Holding(s, sid, Evicting, token)
      && token in s.minted && s.minted[token] == ForEviction(sid)
    case CancelProject(pid, t) => t == token && pid in s.evictions && s.evictions[pid] == token
    case SweepFinish(i) =>
      && i < |s.sweeps| && s.sweeps[i].token == token
      && s.sweeps[i].pid in s.evictions && s.evictions[s.sweeps[i].pid] == token
    case _ => false
  }

  /** Giving up a session's or a project's reservation spends its token. */
  lemma ReleasingSpends(s: State, step: Step, token: Token)
    requires Inv(s) && Enabled(s, step) && GivesUp(s, step, token)
    ensures Spent(Apply(s, step), token)
  {
    hide Inv, Spent, Apply, Enabled;
    if step.CancelProject? || step.SweepFinish? {
      ReleasingProjectSpends(s, step, token);
    } else {
      ReleasingSessionSpends(s, step, token);
    }
  }

  lemma ReleasingSessionSpends(s: State, step: Step, token: Token)
    requires Inv(s) && GivesUp(s, step, token)
    requires step.ReleaseMutation? || step.CancelEviction? || step.ReleaseSession?
    ensures Spent(Apply(s, step), token)
  {
    hide Inv, NewSessionStep, LoadStep, ProjectStep, SweepStep, TeardownStep;
    TokensTellTheirUse(s, token);
    LeavingIsTornDown(s, step.sid);
  }

  lemma ReleasingProjectSpends(s: State, step: Step, token: Token)
    requires Inv(s) && Enabled(s, step) && GivesUp(s, step, token) && (step.CancelProject? || step.SweepFinish?)
    ensures Spent(Apply(s, step), token)
  {
    hide Inv, NewSessionStep, LoadStep, MutationStep, EvictionStep, TeardownStep, Collected;
    TokensTellTheirUse(s, token);
    if step.SweepFinish? {
      SweptIsGone(s, step.i);
    }
  }

  /** An entry in use holds a token minted for it, or that of its project's eviction. */
  lemma TokensTellTheirUse(s: State, token: Token)
    requires Inv(s)
    ensures forall pid :: pid in s.evictions && s.evictions[pid] == token ==>
              token in s.minted && s.minted[token] == ForProject(pid)
    ensures forall k :: k in s.entries && s.entries[k].operation == Some(token) && !Leaving(s.entries[k]) ==>
              && token in s.minted
              && if s.entries[k].phase.Mutating? then s.minted[token] == ForMutation(k)
                 else s.entries[k].phase.Evicting? &&
                      (s.minted[token] == ForEviction(k) || EvictedWithProject(s, s.entries[k]))
  {
    forall k | k in s.entries ensures EntryOk(s, k, s.entries[k]) {
    }
    hide Fenced, EvictedWithProject;
  }

  /** Spent once, spent in every later state. */
  lemma SpentStaysSpent(s: State, step: Step, token: Token)
    requires Inv(s) && Enabled(s, step) && Spent(s, token)
    ensures Spent(Apply(s, step), token)
  {
    var t := Apply(s, step);
    assert TokensBelow(s) && token < s.nextToken;
    TokensGrow(s, step);
    hide Inv, Enabled, Apply, TokensBelow;
    forall sid | sid in t.entries && t.entries[sid].operation == Some(token) ensures Leaving(t.entries[sid]) {
      OperationOrigin(s, step, sid, token);
    }
  }

  lemma {:induction false} SpentForGood(s: State, steps: seq<Step>, token: Token)
    requires Inv(s) && Spent(s, token) && Interleaving(s, steps)
    ensures Inv(After(s, steps)) && Spent(After(s, steps), token)
    decreases |steps|
  {
    hide Inv, Spent, Apply, Enabled;
    if steps != [] {
      StepKeepsInv(s, steps[0]);
      SpentStaysSpent(s, steps[0], token);
      SpentForGood(Apply(s, steps[0]), steps[1..], token);
    }
  }

  /** A second release, cancellation or sweep with the same token changes nothing, however late it comes. */
  lemma SecondCallChangesNothing(s: State, step: Step, token: Token, steps: seq<Step>, sid: SessionId, pid: ProjectId,
      b: bool)
    requires Inv(s) && Enabled(s, step) && !CancelsThroughProject(s, step) && GivesUp(s, step, token)
    requires Interleaving(Apply(s, step), steps)
    ensures var t := After(Apply(s, step), steps);
            && Apply(t, ReleaseMutation(sid, token, b)) == t && Apply(t, BindMutation(sid, token, pid)) == t
            && Apply(t, CancelEviction(sid, token, b)) == t && Apply(t, ReleaseSession(sid, Some(token), b)) == t
            && Apply(t, CancelProject(pid, token)) == t && Apply(t, SweepStart(pid, token)) == t
  {
    hide Inv, Spent, Apply, Enabled, GivesUp;
    StepKeepsInv(s, step);
    ReleasingSpends(s, step, token);
    SpentForGood(Apply(s, step), steps, token);
    SpentTokensAreInert(After(Apply(s, step), steps), token, sid, pid, b);
  }

  /** A reservation, a load or an exclusive operation in possession of its session. */
  predicate InPossession(e: Entry) {
    e.phase in {Reserved, Loading, Mutating, Evicting}
  }

  /** The same holder: the entry's owner, phase and operation token. */
  predicate SameHolder(e: Entry, f: Entry) {
    f.owner == e.owner && f.phase == e.phase && f.operation == e.operation
  }

  /** What ends possession: the step that completes it or gives it up, the owner letting the whole entry go, an
      invalidation, the cancellation or sweep of the project eviction that made it, the failure of the load,
      or the cleanup after an earlier one. */
  predicate MayEnd(step: Step, sid: SessionId, e: Entry) {
    match step
    case AdoptNew(k, _, owner) => k == sid && owner == e.owner && e.phase.Reserved?
    case LoadFinish(k, owner, _) => k == sid && owner == e.owner && e.phase.Loading?
    case LoadFail(k, owner, _) => k == sid && owner == e.owner && e.phase.Loading?
    case ReleaseMutation(k, t, _) => k == sid && e.phase.Mutating? && e.operation == Some(t)
    case CancelEviction(k, t, _) => k == sid && e.phase.Evicting? && e.operation == Some(t)
    case ReleaseSession(k, maybe, _) => k == sid && e.phase.Evicting? && maybe.Some? && e.operation == maybe
    case CancelProject(_, t) => e.phase.Evicting? && e.operation == Some(t)
    case SweepNext(_, entry) => entry == (sid, e.owner)
    case ReleaseOwned(k, owner) => k == sid && owner == e.owner
    case Invalidate(k) => k == sid
    case CleanupFinish(k, owner) => k == sid && (owner != e.owner || e.phase.Loading?)
    case _ => false
  }

  /** The facts that keep possession from ending by a step of another call. */
  ghost predicate Undisturbed(s: State, sid: SessionId) {
    && sid in s.entries && InPossession(s.entries[sid]) && (sid, s.entries[sid].owner) !in s.teardowns
    && (!s.entries[sid].phase.Loading? ==>
          (sid, s.entries[sid].owner) !in s.loads && (sid, s.entries[sid].owner) !in s.cleanups)
  }

  ghost predicate StillHeld(s: State, t: State, sid: SessionId)
    requires sid in s.entries
  {
    sid in t.entries && SameHolder(s.entries[sid], t.entries[sid])
  }

  lemma HeldNewSessionStep(s: State, step: Step, sid: SessionId)
    requires OfNewSession(step) && Undisturbed(s, sid) && Enabled(s, step) && !MayEnd(step, sid, s.entries[sid])
    ensures StillHeld(s, Apply(s, step), sid)
  {
    hide LoadStep, MutationStep, EvictionStep, ProjectStep, SweepStep, TeardownStep,
         Settle, EvictLive, RestoreLive, ProjectIdle, Collected;
  }

  lemma HeldLoadStep(s: State, step: Step, sid: SessionId)
    requires OfLoad(step) && Undisturbed(s, sid) && Enabled(s, step) && !MayEnd(step, sid, s.entries[sid])
    ensures StillHeld(s, Apply(s, step), sid)
  {
    hide NewSessionStep, MutationStep, EvictionStep, ProjectStep, SweepStep, TeardownStep,
         Settle, ScheduleTeardown, Mint, EvictLive, RestoreLive, ProjectIdle, Collected;
  }

  lemma HeldMutationStep(s: State, step: Step, sid: SessionId)
    requires OfMutation(step) && Undisturbed(s, sid) && Enabled(s, step) && !MayEnd(step, sid, s.entries[sid])
    ensures StillHeld(s, Apply(s, step), sid)
  {
    hide NewSessionStep, LoadStep, EvictionStep, ProjectStep, SweepStep, TeardownStep,
         ScheduleTeardown, EvictLive, RestoreLive, ProjectIdle, Collected;
  }

  lemma HeldEvictionStep(s: State, step: Step, sid: SessionId)
    requires OfEviction(step) && Undisturbed(s, sid) && Enabled(s, step) && !MayEnd(step, sid, s.entries[sid])
    ensures StillHeld(s, Apply(s, step), sid)
  {
    hide NewSessionStep, LoadStep, MutationStep, ProjectStep, SweepStep, TeardownStep,
         EvictLive, RestoreLive, ProjectIdle, Collected;
  }

  lemma HeldProjectStep(s: State, step: Step, sid: SessionId)
    requires OfProject(step) && Undisturbed(s, sid) && Enabled(s, step) && !MayEnd(step, sid, s.entries[sid])
    ensures StillHeld(s, Apply(s, step), sid)
  {
    hide NewSessionStep, LoadStep, MutationStep, EvictionStep, SweepStep, TeardownStep,
         ScheduleTeardown, Settle, ProjectIdle, Collected, Put, Remove;
  }

  lemma HeldSweepStep(s: State, step: Step, sid: SessionId)
    requires OfSweep(step) && Undisturbed(s, sid) && Enabled(s, step) && !MayEnd(step, sid, s.entries[sid])
    ensures StillHeld(s, Apply(s, step), sid)
  {
    hide NewSessionStep, LoadStep, MutationStep, EvictionStep, ProjectStep, TeardownStep,
         Settle, Mint, EvictLive, RestoreLive, ProjectIdle, Collected;
  }

  lemma HeldTeardownStep(s: State, step: Step, sid: SessionId)
    requires OfTeardown(step) && Undisturbed(s, sid) && Enabled(s, step) && !MayEnd(step, sid, s.entries[sid])
    ensures StillHeld(s, Apply(s, step), sid)
  {
    hide NewSessionStep, LoadStep, MutationStep, EvictionStep, ProjectStep, SweepStep,
         Settle, Mint, EvictLive, RestoreLive, ProjectIdle, Collected;
  }

  /** Exclusive possession: while a reservation, a load, a mutation or an eviction holds a session, no step but
      these takes the session from it, so no second one can begin. */
  lemma ReservationIsExclusive(s: State, step: Step, sid: SessionId)
    requires Inv(s) && Enabled(s, step) && sid in s.entries && InPossession(s.entries[sid])
    requires !MayEnd(step, sid, s.entries[sid])
    ensures sid in Apply(s, step).entries && SameHolder(s.entries[sid], Apply(s, step).entries[sid])
  {
    NotLeavingNotTornDown(s, sid);
    if !s.entries[sid].phase.Loading? {
      LoadsAreLoading(s, sid);
    }
    hide Inv, Apply, Enabled, MayEnd;
    if OfNewSession(step) {
      HeldNewSessionStep(s, step, sid);
    } else if OfLoad(step) {
      HeldLoadStep(s, step, sid);
    } else if OfMutation(step) {
      HeldMutationStep(s, step, sid);
    } else if OfEviction(step) {
      HeldEvictionStep(s, step, sid);
    } else if OfProject(step) {
      HeldProjectStep(s, step, sid);
    } else if OfSweep(step) {
      HeldSweepStep(s, step, sid);
    } else {
      HeldTeardownStep(s, step, sid);
    }
  }

  lemma LeavingIsTornDown(s: State, sid: SessionId)
    requires Inv(s)
    ensures sid in s.entries ==> s.entries[sid].tearingDown == Leaving(s.entries[sid])
  {
    assert sid in s.entries ==> EntryOk(s, sid, s.entries[sid]);
  }

  lemma SweptIsGone(s: State, i: nat)
    requires Inv(s) && Enabled(s, SweepFinish(i))
    ensures forall sid :: sid in s.entries ==> !Holding(s, sid, Evicting, s.sweeps[i].token)
  {
    assert SweepOk(s, s.sweeps[i]);
  }

  lemma LiveIsFenced(s: State, sid: SessionId)
    requires Inv(s)
    ensures sid in s.entries && s.entries[sid].phase.Live? && s.entries[sid].project.Some? ==>
        s.entries[sid].project.value !in s.evictions
  {
    assert sid in s.entries ==> EntryOk(s, sid, s.entries[sid]);
  }

  lemma NotLeavingNotTornDown(s: State, sid: SessionId)
    requires Inv(s) && sid in s.entries && !Leaving(s.entries[sid])
    ensures (sid, s.entries[sid].owner) !in s.teardowns
  {
    assert EntryOk(s, sid, s.entries[sid]);
    assert (sid, s.entries[sid].owner) in s.teardowns ==> Owned(s, sid, s.entries[sid].owner);
  }

  lemma LoadsAreLoading(s: State, sid: SessionId)
    requires Inv(s) && sid in s.entries && !Leaving(s.entries[sid]) && !s.entries[sid].phase.Loading?
    ensures (sid, s.entries[sid].owner) !in s.loads && (sid, s.entries[sid].owner) !in s.cleanups
  {
    var p := (sid, s.entries[sid].owner);
    assert p in s.loads + s.cleanups ==> NeverLive(s.entries[p.0]);
  }

  /** Over every interleaving without such a step the holder stays, and no other has had the session. */
  lemma {:induction false} HolderStays(s: State, steps: seq<Step>, sid: SessionId)
    requires Inv(s) && Interleaving(s, steps) && sid in s.entries && InPossession(s.entries[sid])
    requires forall i :: 0 <= i < |steps| ==> !MayEnd(steps[i], sid, s.entries[sid])
    ensures sid in After(s, steps).entries && SameHolder(s.entries[sid], After(s, steps).entries[sid])
    decreases |steps|
  {
    hide Inv, Apply, Enabled, MayEnd;
    if steps != [] {
      StepKeepsInv(s, steps[0]);
      ReservationIsExclusive(s, steps[0], sid);
      var next := Apply(s, steps[0]);
      forall i | 0 <= i < |steps[1..]| ensures !MayEnd(steps[1..][i], sid, next.entries[sid]) {
        assert !MayEnd(steps[i + 1], sid, s.entries[sid]);
        SameHolderSameEnds(steps[i + 1], sid, s.entries[sid], next.entries[sid]);
      }
      HolderStays(next, steps[1..], sid);
    }
  }

  lemma SameHolderSameEnds(step: Step, sid: SessionId, e: Entry, f: Entry)
    requires SameHolder(e, f)
    ensures MayEnd(step, sid, e) <==> MayEnd(step, sid, f)
  {
  }

  /** A finished teardown removes the entry it was scheduled for or nothing: never one made since. */
  lemma TeardownSparesNewerEntries(s: State, sid: SessionId, owner: Token, k: SessionId)
    requires Inv(s) && Enabled(s, TeardownFinish(sid, owner)) && k in s.entries
    ensures k !in Apply(s, TeardownFinish(sid, owner)).entries <==> k == sid && s.entries[k].owner == owner
    ensures k !in Apply(s, TeardownFinish(sid, owner)).entries ==> Leaving(s.entries[k])
  {
    assert EntryOk(s, k, s.entries[k]);
  }

  /** New entries are told from old ones by their owner: a token no pending call can name. */
  lemma NewEntriesAreNew(s: State, step: Step, sid: SessionId)
    requires Inv(s)
    requires sid in Apply(s, step).entries &&
        (sid in s.entries ==> s.entries[sid].owner != Apply(s, step).entries[sid].owner)
    ensures Apply(s, step).entries[sid].owner !in s.minted
    ensures forall p :: p in s.loads + s.teardowns + s.cleanups ==> p.1 != Apply(s, step).entries[sid].owner
  {
    assert TokensBelow(s);
    OwnerOrigin(s, step, sid);
    hide Apply;
  }

  /** The cleanup of a failed load is the exception: it removes whatever entry the session has by then,
      and so spares a newer one exactly when there is none. */
  lemma CleanupRemovesWhateverIsThere(s: State, sid: SessionId, owner: Token)
    ensures (forall k :: k in s.entries && (k != sid || s.entries[k].owner != owner) ==>
               k in Apply(s, CleanupFinish(sid, owner)).entries)
            <==> (sid !in s.entries || s.entries[sid].owner == owner)
  {
    if sid in s.entries && s.entries[sid].owner != owner {
      assert sid !in Apply(s, CleanupFinish(sid, owner)).entries;
    }
  }

  /** At some moment of the run the session has no entry. */
  ghost predicate AbsentSometime(s: State, steps: seq<Step>, sid: SessionId)
    decreases |steps|
  {
    sid !in s.entries || (steps != [] && AbsentSometime(Apply(s, steps[0]), steps[1..], sid))
  }

  /** An owner that is gone does not come back. */
  lemma {:induction false} OwnerStaysAway(s: State, steps: seq<Step>, sid: SessionId, owner: Token)
    requires Inv(s) && Interleaving(s, steps) && owner < s.nextToken && !Owned(s, sid, owner)
    ensures !Owned(After(s, steps), sid, owner)
    decreases |steps|
  {
    if steps != [] {
      var next := Apply(s, steps[0]);
      assert TokensBelow(s);
      if sid in next.entries {
        OwnerOrigin(s, steps[0], sid);
      }
      TokensGrow(s, steps[0]);
      StepKeepsInv(s, steps[0]);
      hide Apply, Inv, Enabled;
      OwnerStaysAway(next, steps[1..], sid, owner);
    }
  }

  /** Over runs: from a failed load on, what its cleanup finds is still its own entry exactly if the session was
      never without one; a newer entry is lost only after the load's own had left and another was made. */
  lemma {:induction false} CleanupTakesItsOwnExactly(s: State, steps: seq<Step>, sid: SessionId, owner: Token)
    requires Inv(s) && Interleaving(s, steps) && Owned(s, sid, owner) && sid in After(s, steps).entries
    ensures After(s, steps).entries[sid].owner == owner <==> !AbsentSometime(s, steps, sid)
    decreases |steps|
  {
    if steps != [] {
      var next := Apply(s, steps[0]);
      assert TokensBelow(s) && EntryOk(s, sid, s.entries[sid]) && owner < s.nextToken;
      StepKeepsInv(s, steps[0]);
      TokensGrow(s, steps[0]);
      if sid in next.entries {
        OwnerOrigin(s, steps[0], sid);
        hide Apply, Inv, Enabled;
        CleanupTakesItsOwnExactly(next, steps[1..], sid, owner);
      } else {
        hide Apply, Inv, Enabled;
        OwnerStaysAway(next, steps[1..], sid, owner);
      }
    }
  }

  /** A run in which that happens: a load is invalidated while it restores the session, its teardown
      finishes first, a second load begins, and the first load's cleanup removes the second's entry,
      after which a third load starts beside the second. */
  lemma CleanupCanRemoveANewerLoad()
    ensures exists steps: seq<Step> ::
              && Interleaving(EMPTY, steps)
              && |After(EMPTY, steps).loads| == 2
              && forall p :: p in After(EMPTY, steps).loads ==> p.0 == 5
  {
    var first := FailedLoad();
    var second := BesideEachOther();
    var steps := first + second;
    RunConcat(EMPTY, first, second);
    assert After(EMPTY, steps).loads == {(5, 1), (5, 2)};
  }

  lemma FailedLoad() returns (steps: seq<Step>)
    ensures Interleaving(EMPTY, steps) && After(EMPTY, steps) == LoadBeingCleanedUp()
  {
    assert Apply(EMPTY, EnsureLoaded(5)) == LoadingState(None);
    assert Apply(LoadingState(None), LoadBind(5, 0, 1)) == LoadingState(Some(1));
    steps := InvalidatedLoad();
    hide Apply;
    steps := RunCons(LoadingState(None), LoadBind(5, 0, 1), steps, LoadBeingCleanedUp());
    steps := RunCons(EMPTY, EnsureLoaded(5), steps, LoadBeingCleanedUp());
  }

  function LoadingState(project: Option<ProjectId>): State {
    EMPTY.(entries := map[5 := Entry(Loading, 0, None, project, None, false)], minted := map[0 := ForOwner(5)],
        nextToken := 1, loads := {(5, 0)}, bound := if project.Some? then {(5, 0)} else {})
  }

  function LoadInvalidated(failed: bool): State {
    LoadingState(Some(1)).(entries := map[5 := Entry(Releasing, 0, None, Some(1), None, true)], teardowns := {(5, 0)},
        loads := if failed then {} else {(5, 0)}, cleanups := if failed then {(5, 0)} else {})
  }

  lemma InvalidatingTheLoad()
    ensures Apply(LoadingState(Some(1)), Invalidate(5)) == LoadInvalidated(false)
  {
    hide NewSessionStep, LoadStep, MutationStep, EvictionStep, ProjectStep, SweepStep;
  }

  lemma FailingTheLoad()
    ensures Apply(LoadInvalidated(false), LoadFail(5, 0, true)) == LoadInvalidated(true)
  {
    hide NewSessionStep, MutationStep, EvictionStep, ProjectStep, SweepStep, TeardownStep;
  }

  lemma TearingDownTheLoad()
    ensures Apply(LoadInvalidated(true), TeardownFinish(5, 0)) == LoadBeingCleanedUp()
  {
    hide NewSessionStep, LoadStep, MutationStep, EvictionStep, ProjectStep, SweepStep;
  }

  lemma InvalidatedLoad() returns (steps: seq<Step>)
    ensures Interleaving(LoadingState(Some(1)), steps) && After(LoadingState(Some(1)), steps) == LoadBeingCleanedUp()
  {
    hide Apply;
    InvalidatingTheLoad();
    FailingTheLoad();
    TearingDownTheLoad();
    steps := RunCons(LoadInvalidated(true), TeardownFinish(5, 0), [], LoadBeingCleanedUp());
    steps := RunCons(LoadInvalidated(false), LoadFail(5, 0, true), steps, LoadBeingCleanedUp());
    steps := RunCons(LoadingState(Some(1)), Invalidate(5), steps, LoadBeingCleanedUp());
  }

  function LoadBeingCleanedUp(): State {
    EMPTY.(minted := map[0 := ForOwner(5)], nextToken := 1, bound := {(5, 0)}, cleanups := {(5, 0)})
  }

  lemma BesideEachOther() returns (steps: seq<Step>)
    ensures Interleaving(LoadBeingCleanedUp(), steps) && After(LoadBeingCleanedUp(), steps).loads == {(5, 1), (5, 2)}
  {
    var s := LoadBeingCleanedUp();
    var s1 := Apply(s, EnsureLoaded(5));
    var s2 := Apply(s1, CleanupFinish(5, 0));
    var s3 := Apply(s2, EnsureLoaded(5));
    assert s3.loads == {(5, 1), (5, 2)};
    hide Apply;
    steps := RunCons(s2, EnsureLoaded(5), [], s3);
    steps := RunCons(s1, CleanupFinish(5, 0), steps, s3);
    steps := RunCons(s, EnsureLoaded(5), steps, s3);
  }

  /** A live session 5 of project 1, and then the same with the project being evicted under token 1. */
  function LiveInProject(evicting: bool): State {
    var e := Entry(if evicting then Evicting else Live, 0, None, Some(1), if evicting then Some(1) else None, false);
    if evicting then EMPTY.(entries := map[5 := e], evictions := map[1 := 1],
        minted := map[0 := ForOwner(5), 1 := ForProject(1)], nextToken := 2)
    else EMPTY.(entries := map[5 := e], minted := map[0 := ForOwner(5)], nextToken := 1)
  }

  const RESERVED_IN_PROJECT := EMPTY.(entries := map[5 := Entry(Reserved, 0, Some("r"), Some(1), None, false)],
      minted := map[0 := ForOwner(5)], nextToken := 1)

  lemma ReservingInProject()
    ensures Apply(EMPTY, ReserveNew(5, 1, "r")) == RESERVED_IN_PROJECT
  {
    hide LoadStep, MutationStep, EvictionStep, ProjectStep, SweepStep, TeardownStep;
  }

  lemma AdoptingInProject()
    ensures Apply(RESERVED_IN_PROJECT, AdoptNew(5, 1, 0)) == LiveInProject(false)
  {
    hide LoadStep, MutationStep, EvictionStep, ProjectStep, SweepStep, TeardownStep;
  }

  lemma EvictingTheProject()
    ensures Apply(LiveInProject(false), ReserveProject(1, {5})) == LiveInProject(true)
  {
    hide NewSessionStep, LoadStep, MutationStep, EvictionStep, SweepStep, TeardownStep;
  }

  lemma ProjectBeingEvicted() returns (steps: seq<Step>)
    ensures Interleaving(EMPTY, steps) && After(EMPTY, steps) == LiveInProject(true)
  {
    hide Apply;
    ReservingInProject();
    AdoptingInProject();
    EvictingTheProject();
    steps := RunCons(LiveInProject(false), ReserveProject(1, {5}), [], LiveInProject(true));
    steps := RunCons(RESERVED_IN_PROJECT, AdoptNew(5, 1, 0), steps, LiveInProject(true));
    steps := RunCons(EMPTY, ReserveNew(5, 1, "r"), steps, LiveInProject(true));
  }

  /** A run to the call that breaks the promise: a session of the evicting project is live again after it. */
  lemma CancellingThroughProjectHappens() returns (steps: seq<Step>)
    ensures Interleaving(EMPTY, steps) && CancelsThroughProject(After(EMPTY, steps), CancelEviction(5, 1, true))
    ensures var t := Apply(After(EMPTY, steps), CancelEviction(5, 1, true));
            1 in t.evictions && 5 in t.entries && t.entries[5].project == Some(1) && t.entries[5].phase.Live?
  {
    steps := ProjectBeingEvicted();
    hide After, Interleaving;
  }

  lemma RunCons(s: State, step: Step, rest: seq<Step>, end: State) returns (steps: seq<Step>)
    requires Enabled(s, step) && !CancelsThroughProject(s, step)
    requires Interleaving(Apply(s, step), rest) && After(Apply(s, step), rest) == end
    ensures steps == [step] + rest && Interleaving(s, steps) && After(s, steps) == end
  {
    steps := [step] + rest;
    assert steps[1..] == rest;
  }

  lemma {:induction false} RunConcat(s: State, first: seq<Step>, second: seq<Step>)
    requires Interleaving(s, first) && Interleaving(After(s, first), second)
    ensures Interleaving(s, first + second) && After(s, first + second) == After(After(s, first), second)
    decreases |first|
  {
    hide Apply, Enabled, CancelsThroughProject;
    if first == [] {
      assert first + second == second;
    } else {
      RunConcat(Apply(s, first[0]), first[1..], second);
      assert (first + second)[1..] == first[1..] + second;
    }
  }
}
