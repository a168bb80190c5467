# AA-OS governance layer in Dafny

This project models the governance layer of AA-OS: the sequential decision
logic that sits between the HTTP routes and a small relational store, and
proves what that logic promises.

It has four parts.

- **Two finite-state machines.**
  - The session-phase chain OPENING → ENGAGEMENT → SYNTHESIS → CLOSURE (`SessionLifecycle`).
  - The six-state system-state automaton (`SystemStateMachine`). Its `assertTransitionAllowed` checks three rules in a fixed order: pause, then the models prerequisite, then the table.
- **Append-only logs read as "latest row wins".**
  - Pause/resume flags at system and user scope (`ControlPlane`).
  - Identity model versions numbered `max + 1` per (model set, type) partition (`IdentityVersions`).
  - Confidence values bounded to [0, 1] (`ConfidenceStates`).
  - Pressure readings bounded to [0, 100], each bucketed into LOW/MODERATE/HIGH/CRITICAL (`PressureStates`).
- **The mutable per-user anchor `UserContext` and what reads or updates it.**
  - The context service (`UserContextService.ContextService`): pause check, then create-if-missing, then ownership/validity checks. A failed check appends a MUTATION_BLOCKED audit row and raises.
  - The read-only transition guard (`TransitionGuard`).
  - Three route handlers: advance a session's phase, close a session, and transition a session's system state (`SessionRoutes`, `TransitionRoute`).
- **The projection pipeline.**
  - An immutable registry (`ProjectionRegistry`).
  - A structural input guard over a closed error-code set (`ProjectionGuard`).
  - An executor that runs resolve → guard → validate → run → audit and records one access audit on success (`ProjectionExecutor`).
  - An input fingerprint: sanitise to four fields, serialise with sorted keys (`StableJson`), then hash with FNV-1a over 32 bits and write the result as eight hex digits (`StableHash`).

**The store.** It is the class `Schema.Db`. It has one field per table:
- sequences for the append-only logs (flags, identity versions, confidence, pressure, audit);
- maps for sessions, model sets and user contexts.

"The latest row by creation time" is the last matching element of a log (`Base.LastWhere`).

**How operations are modelled.**
- **State-changing operations** (`setFlag`, `createVersion`, `recordConfidence`, `recordPressure`, the context service's methods, the route handlers, `execute`) are methods. Their `modifies` clauses name exactly the tables they write.
- **A raised error** is an `Outcome.Err(message)`.
- **Route and service behaviour** is given by a pure step function: the response, the new table and the audit rows appended. Each method's `ensures` ties the store to that step function, and the lemmas state what the step promises.
- **Read-only queries and checks** are functions.

## Model

| member | source | states |
|---|---|---|
| Base.LastIndexWhere | src/core/control/controlFlag.service.ts:85-92 | the index found matches, and no later element matches; None only when nothing matches |
| Base.LastWhere | src/core/control/controlFlag.service.ts:85-92 | "newest first, take the first": None iff no row matches, otherwise a matching row with no later match |
| Base.LastWhereIsLast | src/core/control/controlFlag.service.ts:85-92 | a matching row with no later match is exactly what the latest-row query returns |
| Base.LastWhereAppend | src/core/control/controlFlag.service.ts:64-71 | after one append, the new row is the latest if it matches; otherwise the latest is unchanged |
| SessionLifecycle.AssertPhaseAdvanceAllowed | src/lib/sessionLifecycle.ts:37-42 | raises iff the table forbids the pair; the message names both phases |
| SessionLifecycle.AllowedPairs | src/lib/sessionLifecycle.ts:26-35 | the table allows exactly OPENING→ENGAGEMENT, ENGAGEMENT→SYNTHESIS and SYNTHESIS→CLOSURE |
| SessionLifecycle.AdvanceIsNextRank | src/lib/sessionLifecycle.ts:26-31 | an advance is allowed iff it raises the phase rank by exactly one |
| SessionLifecycle.ClosureIsTerminal | src/lib/sessionLifecycle.ts:30 | CLOSURE has no successor, and no phase advances to itself |
| SessionLifecycle.PhaseNamesDistinct | src/lib/sessionLifecycle.ts:37-42 | the phase names in the error message identify the pair |
| SessionLifecycle.ChainRanks | src/lib/sessionLifecycle.ts:26-31 | along a chain of allowed advances, the k-th phase has rank (first rank + k) |
| SessionLifecycle.ChainFromOpening | src/lib/sessionLifecycle.ts:26-31 | a chain from OPENING visits the phases in order, is at most four long, and a four-long chain ends in CLOSURE |
| SystemStateMachine.AssertTransitionAllowed | src/lib/systemState.ts:61-86 | passes iff not (paused and target ≠ PAUSED), not (INSIGHT_DELIVERY without models), and the pair is one of the twelve edges; a table violation names the pair |
| SystemStateMachine.TableIsTwelvePairs | src/lib/systemState.ts:40-51 | `canTransition` holds for exactly the twelve listed pairs |
| SystemStateMachine.PausedEdges | src/lib/systemState.ts:41-46 | every state except PAUSED may enter PAUSED; PAUSED may only go to UNINITIALIZED, so PAUSED→PAUSED is rejected |
| SystemStateMachine.PauseOverridesTable | src/lib/systemState.ts:71-73 | when paused, any target except PAUSED raises the pause error, whatever the models and the table say |
| SystemStateMachine.InsightNeedsModels | src/lib/systemState.ts:79-81 | without models INSIGHT_DELIVERY is refused, even from MODELED; with models and no pause MODELED→INSIGHT_DELIVERY passes |
| SystemStateMachine.ViolationPrecedence | src/lib/systemState.ts:71-85 | the error raised is the first violated rule, in the order pause, models, table |
| ControlPlane.EffectiveScopeId | src/core/control/controlFlag.service.ts:62 | the system scope always stores and queries a null scope id; the user scope uses the caller's id |
| ControlPlane.FlagRow | src/core/control/controlFlag.service.ts:64-71 | the row written belongs to the requested scope key and carries the given paused flag and reason |
| ControlPlane.GetLatestFlag | src/core/control/controlFlag.service.ts:85-92 | None iff no row for the scope key; otherwise a row for the key with no later row for it |
| ControlPlane.ScopePausedIff | src/core/guard/transitionGuard.service.ts:26-34 | a scope key is paused iff some paused row for it has no later row for the same key |
| ControlPlane.GetEffectivePause | src/core/control/controlFlag.service.ts:99-107 | paused iff the system scope or the user's scope is paused; the system reason (default "System is paused.") wins over the user reason (default "User is paused."); no reason when not paused |
| ControlPlane.FlagAudit | src/core/control/controlFlag.service.ts:73-80 | SYSTEM_PAUSED when paused, else SYSTEM_RESUMED; the audit user is the caller's, else the scope id for the user scope, else null |
| ControlPlane.SetFlag | src/core/control/controlFlag.service.ts:55-83 | appends exactly one row, leaving earlier rows untouched, then one audit row; keeps "system rows carry no scope id" |
| ControlPlane.SetThenGet | src/core/control/controlFlag.service.ts:64-92 | the row just written is the latest for its key |
| ControlPlane.OtherKeysIgnored | src/core/control/controlFlag.service.ts:85-92 | rows for other scope keys never change a key's latest row |
| ControlPlane.SystemPauseWins | src/core/control/controlFlag.service.ts:100-101 | a system pause stays in force, with the system reason, whatever user rows come after it (resumes included) |
| ControlPlane.PauseThenResume | src/core/control/controlFlag.service.ts:64-71 | with no system pause, pausing then resuming a user leaves that user not paused |
| ControlPlane.NoFlagsNoPause | src/core/control/controlFlag.service.ts:103-106 | with no rows, nobody is paused |
| TransitionGuard.VersionCount | src/core/guard/transitionGuard.service.ts:45-50 | the count is positive iff some version row belongs to the model set |
| TransitionGuard.CanEnterInsightDelivery | src/core/guard/transitionGuard.service.ts:59-80 | allowed iff not paused, the context exists with an active set, and that set has a version; otherwise the first failing reason, in the order pause, context, set, versions |
| TransitionGuard.CanInterpret | src/core/guard/transitionGuard.service.ts:86-91 | refuses exactly ASSESSING, with its reason |
| TransitionGuard.CanTransition | src/core/guard/transitionGuard.service.ts:97-104 | allowed iff the user is not paused or the target is PAUSED |
| TransitionGuard.CanTransitionIgnoresTable | src/core/guard/transitionGuard.service.ts:97-104 | the answer does not depend on `from`; with no pause it allows even PAUSED→INSIGHT_DELIVERY, which the state table rejects |
| TransitionGuard.GuardIgnoresSystemRows | src/core/guard/transitionGuard.service.ts:26-34 | system-scope rows never change the pause the guard reads |
| TransitionGuard.SystemPauseNotSeenByGuard | src/core/guard/transitionGuard.service.ts:26-34 | as written: after a single system pause row the effective pause is on, yet MODELED→LONGITUDINAL_TRACKING is allowed |
| TransitionGuard.CanTransitionEffective | scripts/ticket-1-9-smoke.ts:14-25 | corrected check: allowed iff the effective pause (system first, then user) is off or the target is PAUSED |
| TransitionGuard.EffectiveGuardHonoursSystemPause | scripts/ticket-1-9-smoke.ts:14-25 | under a system pause the corrected check allows exactly the target PAUSED, whatever user rows follow |
| TransitionGuard.EffectiveAgreesWithoutSystemPause | src/core/guard/transitionGuard.service.ts:97-104 | with no system pause, the corrected check answers as the written one |
| UserContextService.DefaultPauseCheck | src/core/userContext/userContext.service.ts:42-53 | paused iff the user's latest user-scope row is paused; a reason exactly when paused |
| UserContextService.DefaultPauseIsUserPart | src/core/userContext/userContext.service.ts:42-53 | with no system pause the default check equals the control plane's effective pause; its pause implies the effective pause |
| UserContextService.EnsureStep | src/core/userContext/userContext.service.ts:87-102 | an existing row is returned with no change or audit; otherwise a version-1 row is created and audited USER_CONTEXT_CREATED |
| UserContextService.EnsureIdempotent | src/core/userContext/userContext.service.ts:87-102 | a second call changes nothing and audits nothing |
| UserContextService.UpdateKeepsValid | src/core/userContext/userContext.service.ts:104-224 | replacing one row with a valid row keeps the whole table valid |
| UserContextService.EnsureKeepsValid | src/core/userContext/userContext.service.ts:87-102 | creating a row keeps every row valid |
| UserContextService.SetLastClosedKeepsValid | src/core/userContext/userContext.service.ts:104-143 | the last closed session is only ever set to a closed session of the user |
| UserContextService.ActivateKeepsValid | src/core/userContext/userContext.service.ts:145-180 | the active model set is only ever set to a model set of the user |
| UserContextService.ClearAndResetKeepValid | src/core/userContext/userContext.service.ts:182-224 | clearing and resetting keep every row valid |
| UserContextService.SetLastClosedSpec | src/core/userContext/userContext.service.ts:104-143 | succeeds iff not paused and the session exists, is the user's and is closed; then sets only `lastClosedSessionId` and audits USER_CONTEXT_LAST_SESSION_SET |
| UserContextService.ActivateSpec | src/core/userContext/userContext.service.ts:145-180 | succeeds iff not paused and the model set exists and is the user's; then sets only `activeModelSetId` |
| UserContextService.ClearSpec | src/core/userContext/userContext.service.ts:182-202 | succeeds iff the pause check passes; the result is the ensured row with only the active set cleared (version and last closed session kept), only that row changes, and the last audit is USER_CONTEXT_MODELSET_CLEARED |
| UserContextService.ResetSpec | src/core/userContext/userContext.service.ts:204-224 | always succeeds, paused or not; clears both anchors and sets the version to the old version + 1 |
| UserContextService.SetLastClosedKeepsVersion | src/core/userContext/userContext.service.ts:104-143 | no row's `contextVersion` changes |
| UserContextService.ActivateKeepsVersion | src/core/userContext/userContext.service.ts:145-180 | no row's `contextVersion` changes |
| UserContextService.ClearKeepsVersion | src/core/userContext/userContext.service.ts:182-224 | clear changes no version; reset changes no other user's row |
| UserContextService.SetLastClosedBlocked | src/core/userContext/userContext.service.ts:104-128 | a failure raises the reason it audits as MUTATION_BLOCKED with the session id; no pre-existing row changes; a paused call writes only that audit |
| UserContextService.ActivateBlocked | src/core/userContext/userContext.service.ts:145-165 | a failure raises the reason it audits as MUTATION_BLOCKED with the model-set id; no pre-existing row changes |
| UserContextService.ClearBlocked | src/core/userContext/userContext.service.ts:182-188 | a paused clear writes only the MUTATION_BLOCKED row and changes no context |
| UserContextService.BlockedAfterPauseKeepsCreatedRow | src/core/userContext/userContext.service.ts:105-117 | a call blocked after the pause check still leaves the row it created, with both the creation and the block audited |
| UserContextService.ContextService.constructor | src/core/userContext/userContext.service.ts:35-53 | the injected pause check is used, or the default one |
| UserContextService.ContextService.Block | src/core/userContext/userContext.service.ts:77-85 | appends one MUTATION_BLOCKED row, then raises the reason |
| UserContextService.ContextService.EnsureUserContext | src/core/userContext/userContext.service.ts:87-102 | the store and the result are those of EnsureStep |
| UserContextService.ContextService.SetLastClosedSession | src/core/userContext/userContext.service.ts:104-143 | the store and the result are those of SetLastClosedStep, with the pause check read from the flag log |
| UserContextService.ContextService.ActivateModelSet | src/core/userContext/userContext.service.ts:145-180 | the store and the result are those of ActivateStep |
| UserContextService.ContextService.ClearActiveModelSet | src/core/userContext/userContext.service.ts:182-202 | the store and the result are those of ClearStep |
| UserContextService.ContextService.ResetUserContext | src/core/userContext/userContext.service.ts:204-224 | the store and the result are those of ResetStep |
| IdentityVersions.LatestVersionRow | src/core/identity/identityVersion.service.ts:98-104 | None iff the partition is empty; otherwise a row of the partition whose version is the highest |
| IdentityVersions.NextVersion | src/core/identity/identityVersion.service.ts:98-104 | greater than every version in the partition; 1 for an empty partition |
| IdentityVersions.DensePrefix | src/core/identity/identityVersion.service.ts:98-114 | a prefix of a densely numbered log is dense |
| IdentityVersions.DenseNext | src/core/identity/identityVersion.service.ts:98-104 | on a dense log the next number is the partition's row count + 1 |
| IdentityVersions.DenseAppend | src/core/identity/identityVersion.service.ts:98-114 | appending a row numbered `max + 1` keeps the log dense |
| IdentityVersions.DensePartitionIsOneToN | src/core/identity/identityVersion.service.ts:98-114 | on a dense log every partition's numbers are exactly 1..n, in order |
| IdentityVersions.PartitionsIndependent | src/core/identity/identityVersion.service.ts:98-104 | a row of one partition changes neither the latest row nor the next number of another |
| IdentityVersions.CreatedIsLatest | src/core/identity/identityVersion.service.ts:106-144 | the row just created, under whatever id the database assigns, is the partition's latest |
| IdentityVersions.CreateVersion | src/core/identity/identityVersion.service.ts:76-126 | a missing or foreign model set audits MUTATION_BLOCKED and raises with nothing appended; otherwise exactly one row, with the database-assigned id and numbered `max + 1`, then one IDENTITY_VERSION_CREATED audit carrying that row's id and number; keeps the log dense |
| IdentityVersions.GetLatestVersion | src/core/identity/identityVersion.service.ts:131-144 | null for a missing or foreign model set; otherwise a stored row of the partition with the highest number, null only for an empty partition |
| ConfidenceStates.RecordConfidence | src/core/confidence/confidenceState.service.ts:70-105 | succeeds iff 0 ≤ value ≤ 1, whoever the user is; otherwise audits CONFIDENCE_MUTATION_BLOCKED and raises with nothing appended; on success appends one row with the given fields and one CONFIDENCE_RECORDED audit; keeps every stored value in bounds |
| ConfidenceStates.GetLatestConfidence | src/core/confidence/confidenceState.service.ts:111-124 | None iff no row for (user, domain, key); otherwise such a row with no later one |
| ConfidenceStates.SecondRecordWins | src/core/confidence/confidenceState.service.ts:111-124 | of two records for the same key, the second is the latest |
| ConfidenceStates.OtherKeysIgnored | src/core/confidence/confidenceState.service.ts:116-123 | rows for other users, domains or keys never change a key's latest row |
| ConfidenceStates.LatestIsBounded | src/core/confidence/confidenceState.service.ts:79-81 | on a log that only RecordConfidence wrote, the latest value lies in [0, 1] |
| PressureStates.DeriveLevel | src/core/pressure/pressureState.service.ts:66-75 | raises iff dpi is outside [0, 100]; otherwise the level whose 25-wide band contains dpi, with the top band closed at 100 |
| PressureStates.DeriveLevelMonotone | src/core/pressure/pressureState.service.ts:71-74 | a larger dpi never yields a lower level |
| PressureStates.DeriveLevelExamples | src/core/pressure/pressureState.service.ts:66-75 | 10→LOW, 60→HIGH, band edges 0, 25 and 75, 100→CRITICAL; 101 and −1 raise |
| PressureStates.RecordPressure | src/core/pressure/pressureState.service.ts:80-112 | succeeds iff 0 ≤ dpi ≤ 100; otherwise audits PRESSURE_MUTATION_BLOCKED and raises with nothing appended; on success appends one row carrying the derived level and one PRESSURE_RECORDED audit; keeps every row's level equal to its derived level |
| PressureStates.GetLatestPressure | src/core/pressure/pressureState.service.ts:117-122 | None iff the user has no reading; otherwise the user's reading with no later one |
| PressureStates.RecordedIsLatest | src/core/pressure/pressureState.service.ts:90-122 | a reading just recorded is the user's latest, and the latest reading's level is the one its dpi derives |
| ProjectionGuard.GuardOk | src/projections/guard/errors.ts:59-61 | the ok variant |
| ProjectionGuard.GuardFail | src/projections/guard/errors.ts:69-74 | the not-ok variant, carrying code and message unchanged |
| ProjectionGuard.CodesDistinct | src/projections/guard/errors.ts:14-37 | the four codes have distinct texts |
| ProjectionGuard.Check | src/projections/guard/ProjectionGuardService.ts:46-95 | passes iff userId is a non-empty string and a present range has two valid dates with from ≤ to; each failure is INVALID_INPUT with its own message, in the source's order |
| ProjectionGuard.CheckOrder | src/projections/guard/ProjectionGuardService.ts:52-67 | userId is checked before the range; a non-Date bound is reported before a NaN one; a one-instant range passes |
| ProjectionGuard.CheckReadsOnlyUserAndRange | src/projections/guard/ProjectionGuardService.ts:46-95 | session id, model-set id and extra fields never change the verdict |
| ProjectionRegistry.Build | src/projections/contracts/ProjectionRegistry.ts:13-15 | the keys are listed once each and match the map; a name is registered iff some definition has it |
| ProjectionRegistry.LaterDefinitionWins | src/projections/contracts/ProjectionRegistry.ts:14 | with duplicate names, the entry is the last definition of that name |
| ProjectionRegistry.Get | src/projections/contracts/ProjectionRegistry.ts:17-23 | the registered contract, or "Unknown projection: name" iff none is registered |
| ProjectionRegistry.ListIsNamesOnce | src/projections/contracts/ProjectionRegistry.ts:25-27 | each registered name is listed once, and exactly the names of the definitions are listed |
| ProjectionRegistry.EmptyRegistryRaises | src/projections/defs/index.ts:22-24 | with the shipped empty definition list, every `get` raises |
| StableJson.KeyBeforeIrreflexive | src/projections/contracts/ProjectionExecutor.ts:130 | the key order is irreflexive |
| StableJson.KeyBeforeTransitive | src/projections/contracts/ProjectionExecutor.ts:130 | the key order is transitive |
| StableJson.KeyBeforeTotal | src/projections/contracts/ProjectionExecutor.ts:130 | any two distinct keys are ordered |
| StableJson.InsertSorted | src/projections/contracts/ProjectionExecutor.ts:130 | inserting a new key into a sorted list keeps it sorted and adds exactly that entry |
| StableJson.SortEntriesSorted | src/projections/contracts/ProjectionExecutor.ts:130-131 | sorting entries with distinct keys gives a strictly sorted permutation of them |
| StableJson.SortedUnique | src/projections/contracts/ProjectionExecutor.ts:130-131 | two strictly sorted lists with the same elements are equal |
| StableJson.RenderFields | src/projections/contracts/ProjectionExecutor.ts:131 | one entry per member, keeping the member's key |
| StableJson.RenderPermutation | src/projections/contracts/ProjectionExecutor.ts:131 | permuting the members permutes the rendered entries |
| StableJson.KeyOrderIrrelevant | src/projections/contracts/ProjectionExecutor.ts:123-133 | objects with the same members in any key order serialise identically |
| StableJson.TwoKeysSorted | src/projections/contracts/ProjectionExecutor.ts:130-132 | `{b, a}` is written with `a` first, as `{"a":…,"b":…}` |
| StableHash.ToHex | src/projections/contracts/ProjectionExecutor.ts:114 | at least one digit, all lowercase hex |
| StableHash.PadStart | src/projections/contracts/ProjectionExecutor.ts:114 | the result is at least `width` long, ends with the input, and is filled in front |
| StableHash.ToHexLength | src/projections/contracts/ProjectionExecutor.ts:114 | a number below 16^k has at most k hex digits |
| StableHash.ToHexRoundTrip | src/projections/contracts/ProjectionExecutor.ts:114 | reading the hex digits back gives the number |
| StableHash.LeadingZerosIgnored | src/projections/contracts/ProjectionExecutor.ts:114 | zero padding does not change the number denoted |
| StableHash.HashTextRoundTrip | src/projections/contracts/ProjectionExecutor.ts:114 | the hash text is exactly eight lowercase hex digits and denotes the hash, so distinct hashes never share a text |
| StableHash.StableHashOf | src/projections/contracts/ProjectionExecutor.ts:106-115 | the loop computes the FNV-1a fold of the key-sorted serialisation; the result is eight lowercase hex digits |
| StableHash.HashKeyOrderIrrelevant | src/projections/contracts/ProjectionExecutor.ts:106-133 | objects differing only in key order get the same fingerprint |
| ProjectionExecutor.Sanitize | src/projections/contracts/ProjectionExecutor.ts:85-97 | defined iff an absent range, or a range with two valid dates; yields exactly the four members userId, sessionId, modelSetId, timeRange |
| ProjectionExecutor.GuardedInputSanitises | src/projections/contracts/ProjectionExecutor.ts:46-97 | every input that passes the guard can be sanitised, with distinct keys |
| ProjectionExecutor.SanitizeKeepsExplicitFields | src/projections/contracts/ProjectionExecutor.ts:85-97 | equal sanitised forms come from inputs agreeing on all four explicit fields |
| ProjectionExecutor.SanitizeIgnoresExtra | src/projections/contracts/ProjectionExecutor.ts:85-97 | other input fields never reach the sanitised form |
| ProjectionExecutor.InputsHashShape | src/projections/contracts/ProjectionExecutor.ts:60-67 | the fingerprint is eight lowercase hex digits and ignores other input fields |
| ProjectionExecutor.StagesArePrefix | src/projections/contracts/ProjectionExecutor.ts:38-70 | the stages reached are a non-empty prefix of resolve, guard, validate, run, audit; all five iff success; an audit iff success |
| ProjectionExecutor.UnknownProjectionStops | src/projections/contracts/ProjectionExecutor.ts:43 | an unknown name raises before any other stage |
| ProjectionExecutor.GuardFailureStops | src/projections/contracts/ProjectionExecutor.ts:46-50 | a guard failure raises "INVALID_INPUT: message"; validate, run and the audit never happen |
| ProjectionExecutor.ValidateFailureStops | src/projections/contracts/ProjectionExecutor.ts:53 | a throwing validate raises its message; run and the audit never happen |
| ProjectionExecutor.SuccessAudit | src/projections/contracts/ProjectionExecutor.ts:56-69 | on success the output is run's output of the registered contract, and the one audit carries the caller, session, projection, its sources, the clock reading and an eight-digit fingerprint |
| ProjectionExecutor.AccessLog.constructor | src/projections/contracts/ProjectionContext.ts:13-29 | an access log starts empty |
| ProjectionExecutor.Executor.constructor | src/projections/contracts/ProjectionExecutor.ts:27-36 | the executor keeps its registry |
| ProjectionExecutor.Executor.Execute | src/projections/contracts/ProjectionExecutor.ts:38-70 | returns ExecuteSpec's result and appends exactly ExecuteSpec's audit (one on success, none otherwise) to the access log |
| SessionRoutes.AdvanceSpec | src/app/api/session/advance/route.ts:35-109 | succeeds iff fields present, session exists, owned, open, user not paused and the stored phase may advance; then changes only that session's phase and audits SESSION_PHASE_ADVANCED with old and new phase |
| SessionRoutes.AdvanceRejections | src/app/api/session/advance/route.ts:35-88 | a rejection changes no session; it audits (one ACTION_BLOCKED_PAUSED, status 403) iff the pause gate stopped it |
| SessionRoutes.AdvanceInvalidPhaseIs400 | src/app/api/session/advance/route.ts:91-115 | a stored phase that forbids the step yields 400 with the lifecycle's message |
| SessionRoutes.CloseSpec | src/app/api/session/close/route.ts:30-86 | succeeds iff fields present, session exists and is owned, and it is already closed or in CLOSURE; a first close sets `closedAt` and audits SESSION_CLOSED once; failures change nothing |
| SessionRoutes.CloseIdempotent | src/app/api/session/close/route.ts:51-54 | closing again answers with the same session, changes nothing and audits nothing |
| SessionRoutes.CloseEnablesLastClosed | src/app/api/session/close/route.ts:61-74 | a CLOSURE session that the route has closed is accepted by `setLastClosedSession` |
| SessionRoutes.ClosedKeptKeepsValid | src/core/userContext/userContext.service.ts:31-33 | a change that keeps every closed session keeps every context row valid |
| SessionRoutes.AdvanceKeepsClosed | src/app/api/session/advance/route.ts:56-61 | an advance never touches a closed session |
| SessionRoutes.CloseKeepsClosed | src/app/api/session/close/route.ts:51-54 | a close never changes an already closed session |
| SessionRoutes.RoutesKeepContextsValid | src/app/api/session/close/route.ts:38-86 | both session routes keep every context row valid |
| SessionRoutes.Advance | src/app/api/session/advance/route.ts:35-115 | the response, sessions and audit log are those of AdvanceStep |
| SessionRoutes.Close | src/app/api/session/close/route.ts:30-92 | the response, sessions and audit log are those of CloseStep |
| TransitionRoute.TransitionSpec | src/app/api/system/transition/route.ts:38-116 | succeeds iff fields present, user not paused, target not INSIGHT_DELIVERY, the caller's pair is an edge and the session exists; then sets only that session's state and audits SYSTEM_STATE_TRANSITION with the pair |
| TransitionRoute.TransitionRejections | src/app/api/system/transition/route.ts:56-127 | a rejection changes no session; it audits (one ACTION_BLOCKED_PAUSED, 403) iff the pause gate stopped it; a rule violation is 400 with the rule's message |
| TransitionRoute.NeverInsightDelivery | src/app/api/system/transition/route.ts:65-98 | the route never enters INSIGHT_DELIVERY; past the gate it answers with the models error |
| TransitionRoute.PausedBlocksEvenPause | src/app/api/system/transition/route.ts:56-88 | a paused user cannot even move to PAUSED here, though the state machine's pause rule would allow it |
| TransitionRoute.StoredStateAndOwnerIgnored | src/app/api/system/transition/route.ts:98-104 | the outcome does not depend on the stored state or the session's owner |
| TransitionRoute.Transition | src/app/api/system/transition/route.ts:38-127 | the response, sessions and audit log are those of TransitionStep |

## Findings

| source | as written | input that shows it | evidently intended | confidence | as-written member | corrected member |
|---|---|---|---|---|---|---|
| src/core/guard/transitionGuard.service.ts:26-34 | `canTransition` reads only the user's latest user-scope flag, so a system-scope pause never blocks it | a log holding one system-scope row `paused = true` and no user rows; `canTransition(u, MODELED, LONGITUDINAL_TRACKING)` answers ok | scripts/ticket-1-9-smoke.ts:14-25 expects a system pause to block that transition and still allow PAUSED, which the effective pause (system first, then user) gives | not executed | TransitionGuard.SystemPauseNotSeenByGuard | TransitionGuard.CanTransitionEffective |

The corrected check is `CanTransitionEffective`:
- `EffectiveGuardHonoursSystemPause` proves that under a system pause it allows only PAUSED, whatever user rows follow.
- `EffectiveAgreesWithoutSystemPause` proves it agrees with the written check when no system pause is in force.

The written `CanTransition` is kept as well, so that its behaviour can be stated.

## Notes on the source

These are modelled as written and stated by lemmas, not claimed as defects.

- **Transition route, ownership.** The route never checks who owns the session.
- **Transition route, `from`.** The rules are applied to the caller's `from`, not to the stored state (`TransitionRoute.StoredStateAndOwnerIgnored`).
- **Transition route, models.** `hasModels` is fixed to false, so the route can never reach INSIGHT_DELIVERY (`TransitionRoute.NeverInsightDelivery`).
- **Close route, pause.** The close route has no pause gate.
- **Confidence ownership.** The header of src/core/confidence/confidenceState.service.ts (line 14) says ownership is enforced. `recordConfidence` (lines 78-93) makes no ownership check. `ConfidenceStates.RecordConfidence` succeeds for any user whenever the value is in bounds.
- **Guard pause check.** The user-context service's default pause check and the guard's `isUserPaused` read only the user scope. `UserContextService.DefaultPauseIsUserPart` relates the default check to the control plane's effective pause.
- **Service exports.** src/core/services.ts (lines 55-57) does not export the guard, control, confidence and pressure services that the smoke scripts import. That file is wiring and is not part of this model.
- **`updatedAt` ordering.** The transition route orders flag rows by `updatedAt`, not `createdAt`. Flag rows are never updated, so the model reads both orders as "last appended".

## Left out

- Prisma client, connection and service wiring (src/lib/prisma.ts, src/core/services.ts, src/projections/index.ts): the store is the explicit `Schema.Db`.
- The read-only database client (src/projections/db-read): a projection's `run` receives a snapshot `ReadView` of the store instead.
- ProjectionAudit.service.ts: the access audit is an append to `ProjectionExecutor.AccessLog`; a failing audit write is not modelled.
- The context factory and injectable audit sinks: service and route audit rows go to `Db.audit`, projection access audits go to `ProjectionExecutor.AccessLog`, and the clock reading `now` is a parameter.
- Async execution, HTTP request and response objects, and request-body parse errors. Statuses and messages are kept. Each handler's catch-all 400 for a failing database call is not modelled, except the transition route's missing session.
- Route fields: a field is modelled as present or absent. A value outside an enum is not representable.
- Thin duplicate routes (control pause/resume/status, session open, system bootstrap) and src/lib/control.ts: they repeat the flag append and the latest-user-flag query modelled in `ControlPlane`.
- Smoke scripts: they serve only as evidence for the properties above.
- Concurrency: every operation is atomic; interleavings between a check and a later write are not modelled.
- JSON string escaping and ISO date formatting: they are the parameters `quote` and `iso`. Numbers are not among the modelled JSON values, because the sanitised input holds only strings, null and nested objects.
- StableHashOf: computes true 32-bit FNV-1a over the characters' code points. The source multiplies in double precision on a signed 32-bit value, so its output is not claimed to match. JavaScript's UTF-16 code units for characters outside the Basic Multilingual Plane are not modelled.
- KeyBefore: keys are compared by code point, whereas `Array.prototype.sort` compares UTF-16 code units, so keys holding characters outside the Basic Multilingual Plane may be ordered differently; the sanitised input's keys are fixed ASCII names, where the two orders agree.
- RecordConfidence: NaN is not modelled (in the source it passes the bounds check); the value is a `real`.
- RecordPressure: NaN is not modelled (in the source it passes the bounds check); dpi is a `real`.
- TransitionRoute.Transition: for a missing session, the database client's error text is the constant `RecordNotFound`, since its exact wording belongs to the client library.
- CreateVersion: the created row's id is a parameter standing for the id the database generates; that ids are unique is the database's promise and is not stated.
- Timestamps: `createdAt`, `updatedAt` and `closedAt` beyond the one value set are not modelled; log order stands for creation order.
