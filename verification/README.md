# Verified model of the agent's core state

These modules model the parts of the repository in which state must stay right over long runs, and prove
what they promise. Operations that change state in place are classes and methods whose `ensures` say what
the new state is; protocols are state machines over what happens between two awaits, and each method is
proved to be one of their steps, so that what is proved about all interleavings holds of the methods.

- `Options` holds the one datatype the other modules share.
- **Secret redaction** (`SecretMatching`, `Redaction`, `StreamingRedactor`): one matching automaton per
  secret with a shared held-back buffer, mask and flag, refined to a specification over the whole text.
- **Session branches** (`SessionBranch`, `SessionHistory`, `SessionFork`, `SessionService`): stored
  `inHistory` flags under append, compaction, rewind and fork against one definition of active history.
- **Live sessions** (`SessionLifecycle`, `LiveSessionRegistry`): reservations, loads, mutations and
  evictions, with their tokens.
- **Durable commits** (`DurableCommits`, `DurableRuns`, `DurableExecutionPort`): serialized commits that
  fail before or after being applied, their recovery, and the waiters of client requests.
- **Tagged messages** (`TaggedMessage`), **context references** (`ContextReferences`): printers and parsers.
- **Trace log** (`TraceQueue`, `TraceLogger`): the bounded queue with waiting writers.
- **Credentials** (`CredentialConfig`, `CredentialStore`, `CredentialFiles`): the config file and the
  secrets file under crashes and failing writes.
- **State coordinator** (`StateCoordinator`): one queue of queries, commands and internal commands.
- **Terminal replay** (`TerminalSequence`, `ScrollbackRing`), **background pages** (`BackgroundPages`), **code cache**
  (`MarkdownCache`).

Where a promise does not hold of the code, one lemma gives the exact condition under which it does and another
an input or a run that fails:

- An epoch anchor appended without its deactivation leaves flags that the definition does not give
  (`SessionHistory.AnchorWithoutDeactivation`; exact: `SessionHistory.AppendKeepsConsistency` with `SessionHistory.FitsByTwoNumbers`).
- A session eviction cancelled with the token of a project eviction frees a fenced entry
  (`SessionLifecycle.PromiseKeptExactly`, `SessionLifecycle.CancellingThroughProjectHappens`).
- The cleanup after a failed load deletes the session's entry without asking whose it is
  (`SessionLifecycle.CleanupRemovesWhateverIsThere`, `SessionLifecycle.CleanupTakesItsOwnExactly`,
  `SessionLifecycle.CleanupCanRemoveANewerLoad`).
- Disposal of a trace log can wait until the stream itself fails (`TraceQueue.DisposeCanWaitForever`; exact:
  `TraceQueue.IdleWaitersToldExactly`).
- The first event a view sees of a terminal is taken whatever its number
  (`TerminalSequence.StepIsFaithfulExactly`, `TerminalSequence.LateStartHappens`).
- A config write that is applied and then reported as failed leaves a reference without its secret
  (`CredentialStore.DanglesExactlyAfterLateFailure`, `CredentialStore.LateFailureHappens`).
- A file at the root, and a directory whose path fills the limit without its slash, do not survive printing
  (`ContextReferences.PrintedReferencesReadBack`, `ContextReferences.RootFileIsNotReadBack`,
  `ContextReferences.FullDirectoryIsNotReadBack`).

## Model

| member | source | states |
|---|---|---|
| SecretMatching.FollowTable | electron/common/redact-secrets.ts:10-16 | a stored failure link leads to the next shorter candidate and skips none, for the table being built and for the text being read alike |
| SecretMatching.ReadCharacter | electron/common/redact-secrets.ts:39-44 | once every longer candidate is ruled out, comparing one character yields the longest prefix of the secret that the longer text ends with |
| SecretMatching.ExtendTable | electron/common/redact-secrets.ts:10-16 | the next table entry is the longest proper border of the next prefix |
| SecretMatching.AfterCompleteMatch | electron/common/redact-secrets.ts:44-50 | after a complete match the last link is the state to go on from, so overlapping occurrences are not missed |
| SecretMatching.HiddenBySnoc | electron/common/redact-secrets.ts:44-48 | one more character hides exactly the positions of the occurrence it completes |
| SecretMatching.DecidedIsFinal | electron/common/redact-secrets.ts:50-53 | a position in front of what a matcher still holds is hidden by no continuation unless it is hidden already |
| SecretMatching.HeldIsUndecided | electron/common/redact-secrets.ts:50-53 | a held prefix is hidden by some continuation, so holding less would be wrong |
| Redaction.RenderIsRedactRuns | electron/common/redact-secrets.ts:64-83 | rendering character by character with the flag gives one mark for each maximal hidden run and leaves the rest |
| Redaction.OneRun | electron/common/redact-secrets.ts:64-83 | a run of hidden characters is one [redacted], a plain run stays as it is |
| Redaction.RunByRun | electron/common/redact-secrets.ts:64-83 | the redacted text may be cut wherever a run ends, so those two cases settle it |
| Redaction.HiddenExactly | electron/common/redact-secrets.ts:36-53 | a character is hidden exactly if it lies in an occurrence of one of the secrets |
| Redaction.RenderConcat | electron/common/redact-secrets.ts:64-83 | rendering in two drains with the flag carried over is rendering at once |
| Redaction.DrainKeepsState | electron/common/redact-secrets.ts:50-54 | draining all that is decided leads to the next stream state: mask, buffer, flag and output still describe the text received |
| Redaction.EmittedIsPrefixOfEveryOutcome | electron/common/redact-secrets.ts:50-54 | what was emitted is a prefix of the redaction of every continuation of the stream |
| Redaction.HeldBackIsNeeded | electron/common/redact-secrets.ts:50-53 | if something is held back, some continuation hides its first character |
| Redaction.SameSecretsSameRedaction | electron/common/redact-secrets.ts:26-29 | dropping empty and repeated secrets changes no redaction |
| Redaction.NoSecretsPassThrough | electron/common/redact-secrets.ts:32-33 | without secrets text passes through as it comes |
| StreamingRedactor.BuildFallback | electron/common/redact-secrets.ts:9-18 | the table filled in place holds at every index the longest proper border |
| StreamingRedactor.SecretMatcher.Feed | electron/common/redact-secrets.ts:39-51 | the state stays the longest proper prefix that ends the text; a match is reported exactly when the secret ends it; links followed plus state grow by at most one per character |
| StreamingRedactor.SecretMatcher.Scan | electron/common/redact-secrets.ts:38-53 | a chunk marks exactly the positions its completed occurrences cover; links plus state never exceed the characters read, over all chunks |
| StreamingRedactor.StreamingSecretRedactor.Drain | electron/common/redact-secrets.ts:64-83 | the first characters are rendered and dropped from buffer and mask, with the flag carried on |
| StreamingRedactor.StreamingSecretRedactor.ScanAll | electron/common/redact-secrets.ts:36-53 | after all matchers the mask marks what the whole text hides, and the retained length is the greatest state |
| StreamingRedactor.StreamingSecretRedactor.Append | electron/common/redact-secrets.ts:32-54 | output extends what was emitted; buffer, mask and flag again describe all text received, with exactly the undecided suffix held back |
| StreamingRedactor.StreamingSecretRedactor.Finish | electron/common/redact-secrets.ts:57-62 | with what was emitted before, the rest is the redaction of the whole stream, and the object is as new |
| StreamingRedactor.RedactTextSecrets | electron/common/redact-secrets.ts:87-93 | the result is the one-shot redaction |
| StreamingRedactor.RedactStream | electron/common/redact-secrets.ts:32-62 | for every list of secrets and every cutting into chunks, the outputs joined are the one-shot redaction of the whole text |
| StreamingRedactor.RedactJsonSecrets | electron/common/redact-secrets.ts:96-112 | at every path into the value: an array keeps its length, an object its keys in order, a string is replaced by its own redaction, and every other leaf stays |
| StreamingRedactor.RedactedEverywhere | electron/common/redact-secrets.ts:96-112 | the same at any depth, for the specification the visitor is proved against |
| StreamingRedactor.SameSecretsSameJson | electron/common/redact-secrets.ts:96-112 | empty and repeated secrets make no difference to a redacted JSON value |
| SessionBranch.RebuildActiveBranch | electron/application/session-branch.ts:171-189 | the flags set in place are those of the definition of active history |
| SessionBranch.LatestBoundary | electron/application/session-branch.ts:172-179 | the boundary found is that of the last live epoch anchor |
| SessionBranch.TerminalToolBatchEnd | electron/application/session-branch.ts:21-43 | for the first record with the number: a turn of n calls ends n records on if the k-th of them is the result of the k-th call, and is refused if not; anything else is left where it is |
| SessionBranch.BatchEndExactly | electron/application/session-branch.ts:21-43 | the same for the definition the loop is proved against |
| SessionBranch.EpochExactly | electron/application/session-branch.ts:175-179 | the epoch is the boundary of the last anchor that stands, 0 without one |
| SessionBranch.ActiveExactly | electron/application/session-branch.ts:171-189 | a message is in active history exactly if it stands up to the end of the branch, is no control command and lies behind that boundary; nothing but the flag of a record changes |
| SessionBranch.RebuiltIsIdempotent | electron/application/session-branch.ts:171-189 | rebuilding flags twice is rebuilding them once |
| SessionHistory.AppendKeepsConsistency | electron/application/session-service.ts:395-452 | an accepted batch keeps the stored flags equal to the definition if and only if its own flags and its deactivation fit the epoch it leads to |
| SessionHistory.FitsByTwoNumbers | electron/application/session-service.ts:395-452 | the same condition by numbers known before the append: no shown message lies between the anchor boundary and the number cleared through, and new messages lie behind the boundary |
| SessionHistory.WellFormedBatchFits | electron/application/session-service.ts:395-452 | a batch whose anchor boundary is deactivated with it, not below the current epoch, always fits |
| SessionHistory.AnchorWithoutDeactivation | electron/persistence/message-repository.ts:317-330 | a concrete accepted batch with an epoch anchor but no deactivation leaves flags and definition in disagreement |
| SessionHistory.RewindKeepsConsistency | electron/application/session-service.ts:711-727 | after any rewind the flags are those of the definition |
| SessionHistory.RewindsCompose | electron/application/session-service.ts:711-727 | rewinding to one boundary and then to an earlier one leaves the same messages as rewinding there at once |
| SessionHistory.RewindLeaves | electron/application/session-branch.ts:156-168 | after a message: what stood up to and including it stands and all later is superseded; before it: it goes too; before its turn: from the first standing message of the turn on, or from the target if there is none |
| SessionHistory.NothingOfTheTurnStands | electron/application/session-branch.ts:163-167 | after a rewind before a turn no message of it stands, and everything before it stands as it did |
| SessionHistory.EveryReachableSession | electron/application/session-service.ts:395-452 | after a first turn and any run of appends, compactions and rewinds the stored flags are those of the definition, at sequence numbers 1 to lastSeq |
| SessionHistory.RewindIsTimeTravel | electron/application/session-service.ts:711-727 | rewinding to an earlier lastSeq restores exactly what was stored then, compactions undone, if and only if nothing of it was superseded since |
| SessionFork.RemapCounts | electron/application/session-branch.ts:9-18 | a boundary is remapped to the number of copied messages at or before it, gaps included |
| SessionFork.CloneIffClosed | electron/application/session-branch.ts:46-153 | a record is cloned if and only if its references lie in the copied prefix and its boundary is reached; turn, replay and derived references lead to the clones of the very messages referred to, and all else is kept |
| SessionFork.ClonesIffClosed | electron/application/session-service.ts:865-874 | all records are cloned if and only if every one of them can be |
| SessionFork.ForkCommutes | electron/application/session-service.ts:794-880 | each record of the fork is such a clone of its source, and is in history exactly if the definition marks the source at the fork point, although numbers and boundaries are remapped |
| SessionFork.ForkIsSound | electron/application/session-service.ts:865-880 | the fork is itself a consistent session numbered 1 to n, on which appends, rewinds and forks go on |
| SessionService.CheckNewSessionBatch | electron/application/session-service.ts:945-980 | a first batch is accepted if and only if it is numbered from 1, belongs to the session, matches the row and has exactly one original user message |
| SessionService.CheckAppendBatch | electron/application/session-service.ts:995-1013 | an appended batch is accepted if and only if it goes on from the last number, belongs to the session and is active but for control commands |
| SessionService.ForkPrefixEnd | electron/application/session-service.ts:794-857 | the end of the copied prefix, or the refusal with its reason; for stored sessions it is the end of the tool batch that would be cut, or where the fork starts |
| SessionService.ForkStartsAt | electron/application/session-service.ts:808-836 | a fork starts at its point, or at the last record that stands |
| SessionService.ForkEndsAt | electron/application/session-service.ts:838-857 | if the last record standing there is a turn of n calls, the copied prefix goes on exactly to the n-th record behind it, each being the result of its call, and the fork is refused exactly if one is missing or out of order; any other fork ends where it starts |
| SessionService.ForkAllowedExactly | electron/application/session-service.ts:771-880 | a fork goes through exactly if its point is a visible turn or request, its batch is whole, both counts are within 512, references stay inside and the history compiles |
| SessionService.RewindAllowedExactly | electron/application/session-service.ts:654-735 | a rewind goes through exactly if its target is visible and of the kind its boundary asks for, and what it leaves compiles |
| SessionService.CopyPrefix | electron/application/session-service.ts:865-874 | filling both id maps and cloning record by record gives the clones of the specification, or its refusal |
| SessionService.RewindRecords | electron/application/session-service.ts:711-727 | superseding and rebuilding, done in place, is the rewind of the specification |
| SessionService.SessionStore.CommitFirstTurn | electron/application/session-service.ts:346-392 | what is stored; when it is refused; that a repeat is answered exactly if the first stored message with its request has the same hash, and with that message; and that a well-formed first turn is consistent |
| SessionService.SessionStore.CommitMutation | electron/application/session-service.ts:395-452 | revision and number are compared, flags cleared through the boundary and nothing else of a record, the batch appended, goal and plan set as the change says, all or nothing; consistency is kept exactly if the batch fits |
| SessionService.SessionStore.Rewind | electron/application/session-service.ts:654-768 | exactly when it is accepted; which messages stand after it, for each of the three boundaries; that they are consistent, and that goal and plan are cleared; nothing else changes |
| SessionService.SessionStore.Fork | electron/application/session-service.ts:771-907 | exactly when it is accepted, whole tool batches included; that the new session is the commuting image of the source up to that end, with goal and plan only from the end of the source; nothing else changes |
| SessionLifecycle.StepKeepsInv | electron/application/live-session-context-registry.ts:61-555 | every step, loads and mutations that learn their project late included, keeps entries of an evicting project out of use, owners new and tokens apart |
| SessionLifecycle.PromiseKeptExactly | electron/application/live-session-context-registry.ts:295-307 | a cancelled session eviction keeps the invariant if and only if the token given is not that of a project eviction under way |
| SessionLifecycle.EvictionFencesProject | electron/application/live-session-context-registry.ts:339-396 | in every interleaving, while a project holds an eviction, each entry bound to it is evicting with its token, releasing or invalid |
| SessionLifecycle.SpentTokensAreInert | electron/application/live-session-context-registry.ts:255-331 | a spent token changes nothing in any release, bind, cancel or eviction |
| SessionLifecycle.SpentStaysSpent | electron/application/live-session-context-registry.ts:208-331 | no step makes a spent token hold something again |
| SessionLifecycle.CancellingThroughProjectHappens | electron/application/live-session-context-registry.ts:295-307 | a concrete run to such a cancellation, after which a session of the evicting project is live |
| SessionLifecycle.ReleasingSpends | electron/application/live-session-context-registry.ts:255-396 | releasing, cancelling or tearing down a session's reservation, and cancelling or finishing a project eviction, spends the token |
| SessionLifecycle.SecondCallChangesNothing | electron/application/live-session-context-registry.ts:255-396 | after that, however late in whatever interleaving, no call with the same token changes anything |
| SessionLifecycle.ReservationIsExclusive | electron/application/live-session-context-registry.ts:61-292 | while a reservation, a load, a mutation or an eviction holds a session, no step but those that end it changes the holder |
| SessionLifecycle.HolderStays | electron/application/live-session-context-registry.ts:61-292 | over every interleaving without such a step the holder stays the same |
| SessionLifecycle.LoadedHasProject | electron/application/live-session-context-registry.ts:447-493 | a load becomes live only with the project it learned |
| SessionLifecycle.ProjectEvicted | electron/application/live-session-context-registry.ts:385-395 | a sweep that has come to all it collected leaves no entry evicting under its token, and the project may be let go |
| SessionLifecycle.TeardownSparesNewerEntries | electron/application/live-session-context-registry.ts:544-555 | a finished teardown removes the entry of its own owner and no other |
| SessionLifecycle.NewEntriesAreNew | electron/application/live-session-context-registry.ts:61-142 | a new entry has an owner that no pending load, teardown or cleanup knows |
| SessionLifecycle.CleanupRemovesWhateverIsThere | electron/application/live-session-context-registry.ts:500-518 | a failed load being cleaned up removes the entry present, whoever owns it: exactly the case in which a newer one is lost |
| SessionLifecycle.CleanupTakesItsOwnExactly | electron/application/live-session-context-registry.ts:500-518 | over runs: from any moment the load owns the entry, what the cleanup finds is still that entry exactly if the session was never without one; so a newer entry is lost only after the load's own had left and another was made |
| SessionLifecycle.CleanupCanRemoveANewerLoad | electron/application/live-session-context-registry.ts:500-518 | a concrete interleaving in which the newer load is lost |
| LiveSessionRegistry.LiveSessionContextRegistry.ReserveNew | electron/application/live-session-context-registry.ts:61-88 | a new session is reserved if it is absent and its project is not being evicted; what becomes of the entry and its tokens is spelled out, and nothing changes otherwise |
| LiveSessionRegistry.LiveSessionContextRegistry.AdoptNew | electron/application/live-session-context-registry.ts:91-105 | only the reserving owner makes the session live; what becomes of the entry and its tokens is spelled out, and nothing changes otherwise |
| LiveSessionRegistry.LiveSessionContextRegistry.ReleaseOwned | electron/application/live-session-context-registry.ts:108-112 | only the owner's entry is scheduled for teardown; what becomes of the entry and its tokens is spelled out, and nothing changes otherwise |
| LiveSessionRegistry.LiveSessionContextRegistry.EnsureLoaded | electron/application/live-session-context-registry.ts:115-142 | a load starts exactly if the session has no entry; what becomes of the entry and its tokens is spelled out, and nothing changes otherwise |
| LiveSessionRegistry.LiveSessionContextRegistry.LoadBind | electron/application/live-session-context-registry.ts:453-465 | a load learns its project and is stopped if that is being evicted; what becomes of the entry and its tokens is spelled out, and nothing changes otherwise |
| LiveSessionRegistry.LiveSessionContextRegistry.LoadFinish | electron/application/live-session-context-registry.ts:479-493 | a load becomes live if its entry is still its own; what becomes of the entry and its tokens is spelled out, and nothing changes otherwise |
| LiveSessionRegistry.LiveSessionContextRegistry.LoadFail | electron/application/live-session-context-registry.ts:494-508 | a failed load leaves or is cleaned up; what becomes of the entry and its tokens is spelled out, and nothing changes otherwise |
| LiveSessionRegistry.LiveSessionContextRegistry.CleanupFinish | electron/application/live-session-context-registry.ts:500-518 | what the cleanup removes; what becomes of the entry and its tokens is spelled out, and nothing changes otherwise |
| LiveSessionRegistry.LiveSessionContextRegistry.ReserveSessionMutation | electron/application/live-session-context-registry.ts:208-230 | a token is given exactly if the session is live or absent, and idle; what becomes of the entry and its tokens is spelled out, and nothing changes otherwise |
| LiveSessionRegistry.LiveSessionContextRegistry.BindSessionMutationProject | electron/application/live-session-context-registry.ts:233-252 | a mutation learns its project exactly if it holds the session and the project is not being evicted; what becomes of the entry and its tokens is spelled out, and nothing changes otherwise |
| LiveSessionRegistry.LiveSessionContextRegistry.ReleaseSessionMutation | electron/application/live-session-context-registry.ts:255-267 | the entry becomes live again or leaves, for the holder of the token only; what becomes of the entry and its tokens is spelled out, and nothing changes otherwise |
| LiveSessionRegistry.LiveSessionContextRegistry.ReserveSessionEviction | electron/application/live-session-context-registry.ts:270-292 | a token is given exactly if the session is live or absent, and idle; what becomes of the entry and its tokens is spelled out, and nothing changes otherwise |
| LiveSessionRegistry.LiveSessionContextRegistry.CancelSessionEviction | electron/application/live-session-context-registry.ts:295-307 | the invariant holds after exactly if the token is not that of a project eviction under way; what becomes of the entry and its tokens is spelled out, and nothing changes otherwise |
| LiveSessionRegistry.LiveSessionContextRegistry.ReleaseSession | electron/application/live-session-context-registry.ts:310-331 | teardown is scheduled for the holder, or for an idle session without a token; what becomes of the entry and its tokens is spelled out, and nothing changes otherwise |
| LiveSessionRegistry.LiveSessionContextRegistry.ReserveProjectEviction | electron/application/live-session-context-registry.ts:339-350 | the project is reserved exactly if no eviction of it is under way, no load or mutation is of unknown project, and every session of it is live and idle; these and no others are then marked; what becomes of the entry and its tokens is spelled out, and nothing changes otherwise |
| LiveSessionRegistry.LiveSessionContextRegistry.ProjectSessionsIdle | electron/application/live-session-context-registry.ts:178-205 | true exactly under that condition, busy sessions included; what becomes of the entry and its tokens is spelled out, and nothing changes otherwise |
| LiveSessionRegistry.LiveSessionContextRegistry.CancelProjectEviction | electron/application/live-session-context-registry.ts:353-366 | the marked entries become live again; what becomes of the entry and its tokens is spelled out, and nothing changes otherwise |
| LiveSessionRegistry.LiveSessionContextRegistry.StartSweep | electron/application/live-session-context-registry.ts:369-389 | a sweep starts exactly for the token of the eviction, or by reserving a project under that same condition, and collects exactly what is marked; what becomes of the entry and its tokens is spelled out, and nothing changes otherwise |
| LiveSessionRegistry.LiveSessionContextRegistry.SweepUnder | electron/application/live-session-context-registry.ts:382-389 | the sweep holds all entries marked under the token; what becomes of the entry and its tokens is spelled out, and nothing changes otherwise |
| LiveSessionRegistry.LiveSessionContextRegistry.SweepOne | electron/application/live-session-context-registry.ts:390-392 | one collected entry is torn down and awaited; what becomes of the entry and its tokens is spelled out, and nothing changes otherwise |
| LiveSessionRegistry.LiveSessionContextRegistry.FinishSweep | electron/application/live-session-context-registry.ts:393-396 | nothing evicts under the token any more; the project is released for its holder only; what becomes of the entry and its tokens is spelled out, and nothing changes otherwise |
| LiveSessionRegistry.LiveSessionContextRegistry.Invalidate | electron/application/live-session-context-registry.ts:418-433 | the entry leaves, whatever it was doing; what becomes of the entry and its tokens is spelled out, and nothing changes otherwise |
| LiveSessionRegistry.LiveSessionContextRegistry.TeardownFinish | electron/application/live-session-context-registry.ts:544-555 | the entry of the owner torn down is removed; what becomes of the entry and its tokens is spelled out, and nothing changes otherwise |
| LiveSessionRegistry.LiveSessionContextRegistry.CanStartBackgroundRun | electron/application/live-session-context-registry.ts:145-159 | a background run may start only in a live, idle session whose project is not being evicted; what becomes of the entry and its tokens is spelled out, and nothing changes otherwise |
| DurableCommits.StepKeepsInv | electron/application/durable-execution-state-port.ts:58-467 | every step of callers, commits and store keeps: bindings not new hold a record the store has held, waiters and promises agree, commits queue in order, store answers are true |
| DurableCommits.SettleWaitersKeepsInv | electron/application/durable-execution-state-port.ts:429-443 | settling any set of waiters keeps promises and map in agreement, resolved ones being stored |
| DurableCommits.BindingChangeKeepsInv | electron/application/durable-execution-state-port.ts:110-124 | a binding may take another record if the store has held it |
| DurableRuns.SettledStaysSettled | electron/application/durable-execution-state-port.ts:127-174 | no step changes the outcome of a settled request: a waiter is settled at most once |
| DurableRuns.DeadBindingsNeverWrite | electron/application/durable-execution-state-port.ts:223-235 | an invalid or replaced binding stays so and none of its commits is sent to the store any more |
| DurableRuns.DeadOverRuns | electron/application/durable-execution-state-port.ts:177-235 | the same over every further run |
| DurableRuns.NoUpdateIsLost | electron/application/durable-execution-state-port.ts:278-289 | a commit is applied only on top of the very record its binding held when it began |
| DurableRuns.AnswersWhen | electron/application/durable-execution-state-port.ts:278-289 | when the store can apply, refuse or load, and when a commit can be settled: a commit inserts a session that is not there, or updates the very revision and number it names |
| DurableRuns.AnswersExactly | electron/application/durable-execution-state-port.ts:244-299 | what each answer of the store and of a load leaves of the commit, and that only an applied one stores anything |
| DurableRuns.SettledCommitIsTrue | electron/application/durable-execution-state-port.ts:244-299 | when a commit that reached the store settles, its binding holds the very record it stored; after a failure the newest record when the session was loaded, which is no older than the commit; and if the load failed too it is invalid or still new |
| DurableRuns.StillNewMeansUnconfirmed | electron/application/durable-execution-state-port.ts:408-421 | a binding is still new after a settled commit if and only if it was new and the recovery could not read the session |
| DurableRuns.FailureInvalidatesExactly | electron/application/durable-execution-state-port.ts:292-298 | after a failure at the store the binding is invalid exactly if it was, or the commit was of a tool batch, or the recovery failed too and the session was not new or was internal |
| DurableRuns.WaitersLearnTheOutcome | electron/application/durable-execution-state-port.ts:399-425 | what a settled public commit tells each waiter: its own are resolved after success; after a failure rejected unless found stored; after a failed recovery of a stored session all are rejected |
| DurableRuns.RecoveryRejectsTheUnstored | electron/application/durable-execution-state-port.ts:385-407 | of a failed commit's waiters just those are rejected whose message the load did not find |
| DurableRuns.EveryReachablePort | electron/application/durable-execution-state-port.ts:127-214 | in every interleaving a resolved request has its message stored, a pending one belongs to the current binding, and commits of a lineage start in call order one at a time |
| DurableRuns.RunsKeepOutcomes | electron/application/durable-execution-state-port.ts:127-174 | over whole runs settled outcomes stay |
| DurableExecutionPort.DurableExecutionStatePort.RegisterBinding | electron/application/durable-execution-state-port.ts:445-467 | a new binding of the same owner takes over waiters and tail; another owner, or a wrong first revision, is refused; bindings, waiters, promises and tail after it are spelled out |
| DurableExecutionPort.DurableExecutionStatePort.ApplyDurableRecord | electron/application/durable-execution-state-port.ts:110-124 | applied exactly if the owner matches and the binding is valid; bindings, waiters, promises and tail after it are spelled out |
| DurableExecutionPort.DurableExecutionStatePort.StartRequest | electron/application/durable-execution-state-port.ts:127-148 | one promise per waiting request; bindings, waiters, promises and tail after it are spelled out |
| DurableExecutionPort.DurableExecutionStatePort.RejectRequest | electron/application/durable-execution-state-port.ts:151-161 | the waiter is taken off and rejected; bindings, waiters, promises and tail after it are spelled out |
| DurableExecutionPort.DurableExecutionStatePort.ForgetBinding | electron/application/durable-execution-state-port.ts:164-174 | the owner's binding goes and all its waiters are rejected; bindings, waiters, promises and tail after it are spelled out |
| DurableExecutionPort.DurableExecutionStatePort.QueueCommit | electron/application/durable-execution-state-port.ts:177-214 | the work goes behind the tail of the binding it was called on; bindings, waiters, promises and tail after it are spelled out |
| DurableExecutionPort.DurableExecutionStatePort.BeginNext | electron/application/durable-execution-state-port.ts:223-242 | a commit is sent exactly if the binding it was queued on is current and valid, its preparation succeeded, and the session is new or there is something to store; it carries the record of the binding and its requests; bindings, waiters, promises and tail after it are spelled out |
| DurableExecutionPort.DurableExecutionStatePort.Recover | electron/application/durable-execution-state-port.ts:379-427 | record restored or binding invalidated, and just the right waiters rejected; bindings, waiters, promises and tail after it are spelled out |
| DurableExecutionPort.DurableExecutionStatePort.FinishCommit | electron/application/durable-execution-state-port.ts:244-299 | confirmed and resolved, or recovered, and a tool batch that failed invalidates; bindings, waiters, promises and tail after it are spelled out |
| DurableExecutionPort.DurableExecutionStatePort.SettleEach | electron/application/durable-execution-state-port.ts:429-443 | each waiter once, off the map with its promise settled; bindings, waiters, promises and tail after it are spelled out |
| TaggedMessage.EscapeIsPerCharacter | shared/tagged-message.ts:12-17 | the chain of whole-string replacements escapes each character on its own |
| TaggedMessage.UnescapeEscape | shared/tagged-message.ts:12-25 | unescaping undoes escaping for every text |
| TaggedMessage.EscapeSpelledOut | shared/tagged-message.ts:12-17 | the entity of each of the three characters; every other one stays |
| TaggedMessage.UnescapeLeavesOtherText | shared/tagged-message.ts:20-25 | text without the three entities is unescaped to itself |
| TaggedMessage.TrimExactly | shared/tagged-message.ts:33-51 | a trimmed text is the text less the white space in front and behind |
| TaggedMessage.EscapedHasNoAngles | shared/tagged-message.ts:12-17 | escaped text has no angle bracket |
| TaggedMessage.UnwrapRender | shared/tagged-message.ts:33-51 | unwrapping a rendered block returns the trimmed text, for every text and every accepted tag |
| TaggedMessage.RenderedTextIs | shared/tagged-message.ts:33-36 | the block letter by letter, and the names refused |
| TaggedMessage.UnwrappedIs | shared/tagged-message.ts:39-51 | a text holds a block exactly if it begins and ends with the tags; its content is the body unescaped, nothing if the tags share their line break |
| TaggedMessage.TextCannotCloseBlock | shared/tagged-message.ts:33-36 | whatever the text, the closing tag occurs in the block at its end only |
| TaggedMessage.AttributeIsContained | shared/tagged-message.ts:28-30 | an escaped attribute has no quote and no angle bracket |
| TaggedMessage.AttributeSpelledOut | shared/tagged-message.ts:28-30 | the entity of each of the four characters in an attribute |
| TaggedMessage.NeutralizedIsPerCharacter | shared/tagged-message.ts:54-73 | the three substitutions act on each character on its own |
| TaggedMessage.NeutralizedSpelledOut | shared/tagged-message.ts:66-71 | the six letters that stand for each of the three characters |
| TaggedMessage.RenderedJsonIs | shared/tagged-message.ts:54-73 | the JSON block letter by letter, attributes included, and the names refused |
| TaggedMessage.NeutralizedKeepsJson | shared/tagged-message.ts:54-73 | the substitution keeps the value read from JSON text (section 7 of RFC 8259) and leaves no raw &, < or > |
| TaggedMessage.JsonCannotCloseBlock | shared/tagged-message.ts:54-73 | whatever the JSON and the attributes, the closing tag occurs at the end only |
| TraceQueue.StepKeepsInv | electron/logging/logger.ts:107-261 | every step keeps: slots accounted for, no wakeup lost, lines in order, each event in one place |
| TraceQueue.EveryReachableQueue | electron/logging/logger.ts:107-261 | in every interleaving, stream failure included: pending is what is queued, in flight and admitted and within the maximum; a sleeping writer implies the slots are full or claimed; the stream gets 1, 2, 3 and so on; only written lines resolve |
| TraceQueue.SleepersAreNotStuck | electron/logging/logger.ts:174-182 | while a writer sleeps, something that frees or claims a slot can still happen |
| TraceQueue.StepsOnlyAdd | electron/logging/logger.ts:184-221 | written lines and settled writes stay; after a failure nothing more is written or numbered |
| TraceQueue.SettledExactly | electron/logging/logger.ts:184-256 | which writes each step resolves and rejects, and which steps fail the logger |
| TraceQueue.ResolvedExactlyIfWritten | electron/logging/logger.ts:184-221 | over every run a write is resolved exactly if its own line was reported as written |
| TraceQueue.IdleWaitersToldExactly | electron/logging/logger.ts:118-124 | disposal is told of the empty slots by every step except a writer that gives back the last slot unused |
| TraceQueue.DisposeCanWaitForever | electron/logging/logger.ts:118-124 | a concrete run after which disposal waits and nothing but an error of the stream itself would wake it |
| TraceQueue.StuckForGood | electron/logging/logger.ts:107-261 | from then on no run without a stream error changes anything |
| TraceLogger.JsonlTraceLogger.BeginWrite | electron/logging/logger.ts:107-116 | refused exactly if the logger stopped; slots, writers, queue, lines and outcomes after it are spelled out |
| TraceLogger.JsonlTraceLogger.ResumeWriter | electron/logging/logger.ts:174-182 | a woken writer looks again; slots, writers, queue, lines and outcomes after it are spelled out |
| TraceLogger.JsonlTraceLogger.EnqueueAdmitted | electron/logging/logger.ts:118-136 | queued, or the slot given back; slots, writers, queue, lines and outcomes after it are spelled out |
| TraceLogger.JsonlTraceLogger.FinishLine | electron/logging/logger.ts:184-221 | resolved, or the queue rejected, and the next line taken; slots, writers, queue, lines and outcomes after it are spelled out |
| TraceLogger.JsonlTraceLogger.OnStreamError | electron/logging/logger.ts:69-72 | the queue is rejected; slots, writers, queue, lines and outcomes after it are spelled out |
| TraceLogger.JsonlTraceLogger.RejectQueue | electron/logging/logger.ts:241-256 | each queued write fails and frees its slot, then all wake; slots, writers, queue, lines and outcomes after it are spelled out |
| TraceLogger.JsonlTraceLogger.Dispose | electron/logging/logger.ts:145-156 | the logger closes to writers; slots, writers, queue, lines and outcomes after it are spelled out |
| TraceLogger.JsonlTraceLogger.EndStream | electron/logging/logger.ts:157-172 | the stream ends when nobody waits; slots, writers, queue, lines and outcomes after it are spelled out |
| TerminalSequence.DeliverIsFaithfulExactly | src/terminal-sequence.ts:13-33 | one delivered event leaves every view showing its events 1 to last if and only if it is not the late first event of a terminal |
| TerminalSequence.RestoreIsFaithfulExactly | src/components/TerminalPanel.vue:349-391 | restoring from a snapshot, however much of its beginning the scrollback had dropped, and observing the replay is faithful if and only if the snapshot has a number or the replay begins with event 1 |
| TerminalSequence.StepIsFaithfulExactly | src/terminal-sequence.ts:13-65 | every step of the panel leaves each view showing its events 1 to last, less the characters recorded as missing at the beginning, if and only if it does not start a terminal late |
| TerminalSequence.NoHoleInAnyRun | src/terminal-sequence.ts:13-65 | under lost, repeated and reordered events, overlapping recoveries, a queue of 256 that dropped some and snapshots cut by the scrollback, the text of a view is all output of the events 1 to last from some character on, without a hole |
| TerminalSequence.MissingIsWhatWasDropped | src/components/TerminalPanel.vue:349-391 | what is missing at the beginning of a view is what the last snapshot restored had dropped, and nothing without one |
| TerminalSequence.LateStartHappens | src/terminal-sequence.ts:18-32 | a view whose first event has number 2 takes it and then shows less than events 1 to 2 |
| TerminalSequence.RecoveryCatchesUp | src/terminal-sequence.ts:48-59 | if the queue kept all events after the snapshot, in any order, replay ends at the newest and asks for nothing more |
| TerminalSequence.NothingIsPassedOver | src/terminal-sequence.ts:13-40 | an event that arrives is rendered or old, or else its terminal recovers from then on and the event is held back |
| TerminalSequence.PanelStepsExactly | src/terminal-sequence.ts:36-73 | what holding back, starting and abandoning a recovery change, and that no view is touched |
| TerminalSequence.SortIsOrderedPermutation | src/terminal-sequence.ts:56-58 | the replay is in order and holds each event as often as queued |
| TerminalSequence.TerminalSequenceTracker.ObserveEvent | src/terminal-sequence.ts:13-33 | held back exactly while the terminal recovers, ignored exactly if old, the reason of a recovery exactly if there is a gap before it, rendered otherwise; and the state each leaves |
| TerminalSequence.TerminalSequenceTracker.DeferEvent | src/terminal-sequence.ts:36-40 | the event goes behind the queue, of which the newest 256 are kept |
| TerminalSequence.TerminalSequenceTracker.BeginRecovery | src/terminal-sequence.ts:43-45 | the terminal is recovering from now on |
| TerminalSequence.TerminalSequenceTracker.EndRecovery | src/terminal-sequence.ts:48-59 | the snapshot number is taken over, recovery and queue end, and the held events newer than it are returned, each as often as held, in order |
| TerminalSequence.TerminalSequenceTracker.AbandonRecovery | src/terminal-sequence.ts:62-65 | recovery and queue of the terminal are dropped, the last number stays |
| ScrollbackRing.ByteRingBuffer.Append | electron/terminal/byte-ring-buffer.ts:21-35 | the ring holds exactly the newest bytes of all appended, as many as its capacity |
| ScrollbackRing.ByteRingBuffer.Snapshot | electron/terminal/byte-ring-buffer.ts:38-56 | from any cursor the bytes written since, as far as retained, and whether some before were lost |
| ScrollbackRing.RingServesATail | electron/terminal/pool.ts:462-472 | for every encoding of characters, what a ring of any capacity retains of a terminal's first events are the bytes of a snapshot as the panel model takes it, with at most the rest of one cut character in front |
| BackgroundPages.CursorFollowsTheSort | electron/application/background-task-application-service.ts:261-269 | the cursor test and the sort agree, and order any two tasks with different positions |
| BackgroundPages.OrderExactly | shared/background-tasks.ts:95-122 | busy tasks come first, children and pending states included, then newer ones, then greater keys; a cursor says just that of its task |
| BackgroundPages.PageSeesEnough | electron/application/background-task-application-service.ts:51-126 | although only 51 agents are read, the records agree with all tasks after the cursor up to one past the page |
| BackgroundPages.PageIsTheNextFifty | electron/application/background-task-application-service.ts:121-147 | for every cursor the page is the first fifty tasks after it, and hasMore is true exactly if there are more |
| BackgroundPages.NextPageGoesOn | electron/application/background-task-application-service.ts:129-147 | the cursor handed out stands where the page ends |
| BackgroundPages.EveryTaskExactlyOnce | electron/application/background-task-application-service.ts:51-147 | following nextBefore meets every agent and terminal exactly once, in order, and ends |
| BackgroundPages.SortOrders | shared/background-tasks.ts:111-122 | sorting tasks with distinct keys orders them strictly and loses none |
| BackgroundPages.SortPermutes | shared/background-tasks.ts:111-122 | sorting permutes |
| ContextReferences.ReadReference | src/context-references.ts:38-66 | the index loop on the braced form computes the scan proved about |
| ContextReferences.ScanEscaped | src/context-references.ts:48-65 | escaped text before a closing brace is read back whole |
| ContextReferences.ReadExactly | src/context-references.ts:38-66 | a braced reference is read exactly if braces enclose a well spelled path that names an attachment within the window: backslashes only take the place of a brace or backslash behind them, raw braces and line ends end it |
| ContextReferences.ReferenceExactly | src/context-references.ts:10-30 | which paths are refused, and which attachment any other names |
| ContextReferences.NormalExactly | src/context-references.ts:6-9 | a normal path: backslashes turned, every leading ./ gone, a dot if nothing is left |
| ContextReferences.SchemeExactly | src/context-references.ts:20-24 | what counts as a scheme |
| ContextReferences.FormatExactly | src/context-references.ts:31-36 | the printed form of an attachment |
| ContextReferences.EscapeSpelledOut | src/context-references.ts:31-36 | braces get a backslash, no other character is changed |
| ContextReferences.WindowSuffices | src/context-references.ts:48-52 | the window reaches the closing brace of every accepted path, all braces escaped |
| ContextReferences.PrintedReferencesReadBack | src/context-references.ts:6-66 | for every accepted path, reading a printed reference wherever it stands consumes just it and returns the normalized attachment, if and only if it is neither a file at the root nor a directory whose path fills 4096 characters without its slash |
| ContextReferences.RootFileIsNotReadBack | src/context-references.ts:33-36 | the root given as a file is not read back |
| ContextReferences.FullDirectoryIsNotReadBack | src/context-references.ts:12-16 | a directory path of 4096 letters is not read back |
| ContextReferences.OwnReferencesReadBack | src/context-references.ts:10-36 | an attachment that reference itself made is always read back unchanged |
| ContextReferences.ContentRefersBack | src/context-references.ts:10-30 | the text between the braces refers to the normalized attachment, under the same condition |
| CredentialConfig.EveryPlanFits | electron/config/store.ts:758-1057 | every update writes a config that holds just what was held, less the secret it then deletes, plus the one it stored first, with no secret shared; copies get no key |
| CredentialConfig.PlannedExactly | electron/config/store.ts:758-1063 | for each kind of update: when it is refused, the config it writes field by field, the secret it stores before and the one it deletes after |
| CredentialConfig.RevisionsFollowRoutes | electron/config/store.ts:228-345 | a provider's revision never falls, and rises whenever its route shape or key reference changes |
| CredentialConfig.Target | electron/config/store.ts:766-769 | a credential request means the named provider if there is one, else the default |
| CredentialConfig.Fallback | electron/config/store.ts:348-359 | a deleted provider is followed by the preferred one if there is one |
| CredentialConfig.IdsStay | electron/config/store.ts:824-895 | only deleting a provider takes its id away |
| CredentialConfig.DefaultStaysConfigured | electron/config/store.ts:845-895 | no update of these kinds leaves a default provider that is not there |
| CredentialStore.StepKeepsInv | electron/config/store.ts:758-1057 | every write, failed write, crash and re-encryption keeps both files in accord, but for one kind of failure |
| CredentialStore.CrashExactly | electron/config/secret-store.ts:60-105 | a crash leaves what the files hold; a re-encryption stores a record and saves all |
| CredentialStore.DanglesExactlyAfterLateFailure | electron/common/filesystem/atomic-write.ts:24-43 | after a config write and the following removal a saved reference has no record in memory exactly if the write gave a new secret its holder, was applied and was reported as failed, as when the mode change after the rename fails; it has none on disk exactly if the removal was saved too |
| CredentialStore.UnsavedRemovalDanglesLater | electron/config/secret-store.ts:158-165 | a removal not saved only delays it: the next saving of the records for another secret loses it |
| CredentialStore.LateFailureHappens | electron/config/store.ts:1044-1055 | a concrete run to a reference on disk whose record is gone |
| CredentialStore.NoDanglingReference | electron/config/store.ts:758-1057 | at every crash point of every run without such a failure, each reference in the config on disk names a record in the secrets file on disk and in memory, and no two holders share one |
| CredentialStore.UndisturbedStepsLeaveNothing | electron/config/secret-store.ts:158-165 | without failures each update deletes what it replaced |
| CredentialStore.SecretsAreThoseNamed | electron/config/store.ts:758-1057 | then the secrets saved are exactly those the saved config names |
| CredentialFiles.UpdateIsARun | electron/config/store.ts:758-1063 | an update executed from start to end is a run of its steps |
| CredentialFiles.ConfigStore.Perform | electron/config/store.ts:758-1063 | config, secrets and both files after an update, field by field, for every outcome of its three writes |
| CredentialFiles.ConfigStore.Update | electron/config/store.ts:699-707 | an update does what its request plans, is accepted exactly if it is not refused and its writes succeed, and whatever else fails ends with every reference backed |
| CredentialFiles.SecretStore.Set | electron/config/secret-store.ts:105-127 | a record under a new reference, in memory always and on disk if the write succeeds |
| CredentialFiles.SecretStore.Delete | electron/config/secret-store.ts:158-165 | the record goes, if there is one; an unknown reference changes nothing |
| MarkdownCache.CacheIsTheMostRecent | src/markdown-code.ts:62-89 | after any uses of an empty cache, as long as a key always gets the same text, the cache is the longest fitting suffix, in order of last use, of all that was ever accepted |
| MarkdownCache.FittingIsLongest | src/markdown-code.ts:82-88 | the eviction loop leaves the longest suffix that fits |
| MarkdownCache.RememberKeepsLimits | src/markdown-code.ts:75-89 | keys stay unique and both limits hold |
| MarkdownCache.NewestIsKept | src/markdown-code.ts:82-88 | the entry just stored is never evicted by its own arrival |
| MarkdownCache.CodeCache.Store | src/markdown-code.ts:75-89 | the new entry stands last and alone under its key, the last entries within 128 and 8 MiB are kept and no fewer, and the counter is their sum; too large a text changes nothing |
| MarkdownCache.CodeCache.Lookup | src/markdown-code.ts:62-73 | a hit returns the text of the key and moves its entry to the end, a miss changes nothing |
| StateCoordinator.StepKeepsInv | electron/application/application-state-coordinator.ts:71-179 | every step keeps tickets in order, the cursor equal to the published transactions in the database but for one committed and not yet numbered, and closing final |
| StateCoordinator.EveryAnswerMatchesItsCursor | electron/application/application-state-coordinator.ts:71-131 | in every interleaving a query's cursor counts exactly the published transactions its value reflects, although a transaction is in the database before it is numbered; commits are numbered in call order |
| StateCoordinator.OnlyTheQueueHidesIt | electron/application/application-state-coordinator.ts:104-112 | beside the queue database and cursor disagree exactly while a command has committed and not resumed, and never when the next job begins |
| StateCoordinator.UnnumberedIsReached | electron/application/application-state-coordinator.ts:104-112 | the first command reaches that moment |
| StateCoordinator.PublishedInOrder | electron/application/application-state-coordinator.ts:112-128 | subscribers get ascending cursors of commits that were made |
| StateCoordinator.NothingAfterClosing | electron/application/application-state-coordinator.ts:159-164 | once close has resolved all accepted work is settled and nothing more happens |
| StateCoordinator.ClosingIsFinal | electron/application/application-state-coordinator.ts:159-164 | from the call of close on no run takes on work, and close waits for just what had been accepted |
| StateCoordinator.ApplicationStateCoordinator.Enqueue | electron/application/application-state-coordinator.ts:71-80 | refused exactly once closing has begun, else behind the tail; the whole state after it is spelled out |
| StateCoordinator.ApplicationStateCoordinator.StartNext | electron/application/application-state-coordinator.ts:80-88 | a query is answered in one go, or settles without an answer if its read throws; other work begins its transaction; the whole state after it is spelled out |
| StateCoordinator.ApplicationStateCoordinator.TransactionEnded | electron/application/application-state-coordinator.ts:104-110 | the database has the transaction or it failed; it has no number yet; the whole state after it is spelled out |
| StateCoordinator.ApplicationStateCoordinator.ResumeAfterTransaction | electron/application/application-state-coordinator.ts:112-119 | a command takes the next number and publishes, private work is done; the whole state after it is spelled out |
| StateCoordinator.ApplicationStateCoordinator.PublicationEnded | electron/application/application-state-coordinator.ts:119-129 | a failed publication undoes nothing; the whole state after it is spelled out |
| StateCoordinator.ApplicationStateCoordinator.StartClosing | electron/application/application-state-coordinator.ts:159-164 | no work is accepted from now on; the whole state after it is spelled out |

## Left out

- Characters: text is a sequence of Dafny characters, while the program works on UTF-16 code units; lengths and windows count characters here.
- SQL: repositories are sequences and maps with the contracts their queries state; transactions are atomic.
- Session manager, history compiler and runtime status: whether a session is idle and whether its history compiles are parameters.
- Durable port and first turns: there an answer found in the store counts as a refused commit, as in the source.
- `SessionService` archive, restore, delete and metadata updates: field copies that would only add easy members.
- Message bodies: what history, rewind and fork do not look at is one opaque `body` per record.
- SessionLifecycle.HolderStays: the holder is told by its owner, phase and token; the project may be learned meanwhile.
- The registry for liveness of loads and teardowns: only what is safe in every interleaving is stated.
- DurableRuns.FailureInvalidatesExactly: speaks of commits that reached the store; a commit whose binding was replaced, or whose preparation failed, rejects before that and leaves the binding as it is.
- Durable port: one session at a time; the in-memory history restored after a failure, usage capture and the invalidation callback are left out.
- TraceQueue.EveryReachableQueue: waiting writers are interchangeable and counted, so the order in which they wake is not stated; the content of a line and the drain event are left out.
- TerminalSequence.NoHoleInAnyRun: a run in which a terminal is first seen late is excluded, since the program then has no way to know what it missed; exactly which steps do so is `TerminalSequence.StepIsFaithfulExactly`.
- ScrollbackRing.RingServesATail: how the rest of a cut character in front is decoded.
- BackgroundPages.CursorFollowsTheSort: creation times and keys are ranks in one total order; the program sorts with `localeCompare` but tests the cursor with `<`, which agree on the timestamps, decimal numbers and lower-case hexadecimal ids behind the fixed prefixes `terminal:` and `subagent-` that it compares; and it lets the query decide on its own what is active.
- Background pages while tasks change between two pages, and the owner check of cursors.
- Context references without braces: a heuristic with no round trip intended.
- Provider updates: base URL, model, catalog and overrides are one `shape`; validation errors, the model pool and auxiliary roles are left out.
- Secrets file: two writes of it at the same time, which a re-encryption during an update could cause, and the availability of the platform's encryption.
- Config file: migration, backup of an unreadable file, and MCP servers.
- State coordinator: freezing of published commits, and rolling back inside the database.
- Code highlighting worker and its requests in flight.
- Windows, IPC, rendering, processes, network: foreign calls.
