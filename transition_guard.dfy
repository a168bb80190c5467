/** The transition guard: read-only checks over a snapshot of the store.
    Every function here only reads the flag log, the user contexts and the
    identity-version log, so no guard can change the store. */
module TransitionGuard {
  import opened Base
  import opened Schema
  import opened ControlPlane
  import SystemStateMachine

  /** Denial reasons. */
  const InsightUserPaused: string := "User is paused; cannot enter INSIGHT_DELIVERY."
  const InsightNoContext: string := "UserContext missing; cannot enter INSIGHT_DELIVERY."
  const InsightNoActiveSet: string := "No active ModelSet; cannot enter INSIGHT_DELIVERY."
  const InsightNoVersions: string := "Active ModelSet has no identity versions; cannot enter INSIGHT_DELIVERY."
  const InterpretBlocked: string := "Interpretation is blocked during ASSESSING."
  const TransitionsBlocked: string := "User is paused; transitions are blocked."

  /** `{ ok: true } | { ok: false; reason }` */
  datatype GuardResult = Allowed | Denied(reason: string)

  /** `!!ctx.activeModelSetId`: an empty id counts as no active set. */
  predicate HasActiveSet(ctx: UserContext) {
    ctx.activeModelSetId.Some? && ctx.activeModelSetId.value != ""
  }

  /** `identityModelVersion.count({ where: { modelSetId } })` */
  function VersionCount(versions: seq<IdentityModelVersion>, modelSetId: Id): (n: nat)
    ensures n <= |versions|
    ensures n > 0 <==> exists i :: 0 <= i < |versions| && versions[i].modelSetId == modelSetId
  {
    if |versions| == 0 then 0
    else
      var rest := VersionCount(versions[..|versions| - 1], modelSetId);
      assert forall i :: 0 <= i < |versions| - 1 ==> versions[..|versions| - 1][i] == versions[i];
      rest + (if versions[|versions| - 1].modelSetId == modelSetId then 1 else 0)
  }

  /** `canEnterInsightDelivery`: the first failing prerequisite, in the order
      pause, context, active set, versions. */
  function CanEnterInsightDelivery(flags: seq<ControlFlag>, contexts: map<Id, UserContext>,
                                   versions: seq<IdentityModelVersion>, userId: Id): (r: GuardResult)
    ensures r == Allowed <==>
      && !UserPaused(flags, userId)
      && userId in contexts && HasActiveSet(contexts[userId])
      && exists i :: 0 <= i < |versions| && versions[i].modelSetId == contexts[userId].activeModelSetId.value
    ensures UserPaused(flags, userId) ==> r == Denied(InsightUserPaused)
    ensures !UserPaused(flags, userId) && userId !in contexts ==>
      r == Denied(InsightNoContext)
    ensures !UserPaused(flags, userId) && userId in contexts && !HasActiveSet(contexts[userId]) ==>
      r == Denied(InsightNoActiveSet)
    ensures !UserPaused(flags, userId) && userId in contexts && HasActiveSet(contexts[userId]) &&
            VersionCount(versions, contexts[userId].activeModelSetId.value) == 0 ==>
      r == Denied(InsightNoVersions)
  {
    if UserPaused(flags, userId) then Denied(InsightUserPaused)
    else if userId !in contexts then Denied(InsightNoContext)
    else if !HasActiveSet(contexts[userId]) then Denied(InsightNoActiveSet)
    else if VersionCount(versions, contexts[userId].activeModelSetId.value) == 0 then
      Denied(InsightNoVersions)
    else Allowed
  }

  /** `canInterpret`: interpretation is refused exactly during ASSESSING. */
  function CanInterpret(currentState: SystemState): (r: GuardResult)
    ensures r == Allowed <==> currentState != ASSESSING
    ensures r.Denied? ==> r.reason == InterpretBlocked
  {
    if currentState == ASSESSING then Denied(InterpretBlocked)
    else Allowed
  }

  /** `canTransition` as written: only the user's own latest flag is read;
      `from` is ignored and the state table is not consulted. */
  function CanTransition(flags: seq<ControlFlag>, userId: Id, from: SystemState, to: SystemState): (r: GuardResult)
    ensures r == Allowed <==> !UserPaused(flags, userId) || to == PAUSED
    ensures r.Denied? ==> r.reason == TransitionsBlocked
  {
    if UserPaused(flags, userId) then
      if to == PAUSED then Allowed else Denied(TransitionsBlocked)
    else Allowed
  }

  /** The answer of `canTransition` does not depend on `from`, and without a
      user pause it allows even pairs the state table rejects. */
  lemma CanTransitionIgnoresTable(flags: seq<ControlFlag>, userId: Id, from1: SystemState, from2: SystemState, to: SystemState)
    ensures CanTransition(flags, userId, from1, to) == CanTransition(flags, userId, from2, to)
    ensures !UserPaused(flags, userId) ==> CanTransition(flags, userId, PAUSED, INSIGHT_DELIVERY) == Allowed
    ensures !SystemStateMachine.CanTransition(PAUSED, INSIGHT_DELIVERY)
  {
  }

  /** System-scope rows never change the user-scope pause the guard reads. */
  lemma GuardIgnoresSystemRows(flags: seq<ControlFlag>, rows: seq<ControlFlag>, userId: Id)
    requires forall k :: 0 <= k < |rows| ==> rows[k].scope == SystemScope
    ensures UserPaused(flags + rows, userId) == UserPaused(flags, userId)
  {
    OtherKeysIgnored(flags, rows, UserScope, Some(userId));
  }

  /** The transition check the system-pause scenario expects: the effective
      pause (system scope first, then the user's scope) blocks every target
      but PAUSED. */
  function CanTransitionEffective(flags: seq<ControlFlag>, userId: Id, from: SystemState, to: SystemState): (r: GuardResult)
    ensures r == Allowed <==> !GetEffectivePause(flags, userId).isPaused || to == PAUSED
    ensures r.Denied? ==> r.reason == TransitionsBlocked
  {
    if GetEffectivePause(flags, userId).isPaused then
      if to == PAUSED then Allowed else Denied(TransitionsBlocked)
    else Allowed
  }

  /** As written, a system pause does not block `canTransition`: after a
      single system-scope pause row, MODELED → LONGITUDINAL_TRACKING is still
      allowed although the effective pause is on. */
  lemma SystemPauseNotSeenByGuard(userId: Id)
    ensures var flags := [FlagRow(SystemScope, None, true, Some("Operator pause"))];
            && GetEffectivePause(flags, userId).isPaused
            && CanTransition(flags, userId, MODELED, LONGITUDINAL_TRACKING) == Allowed
  {
    var flags := [FlagRow(SystemScope, None, true, Some("Operator pause"))];
    SetThenGet([], SystemScope, None, true, Some("Operator pause"));
    assert flags == [] + flags;
    assert !FlagFor(flags[0], UserScope, Some(userId));
  }

  /** The corrected check blocks on a system pause whatever the user's own
      later rows say, and still allows PAUSED. */
  lemma EffectiveGuardHonoursSystemPause(flags: seq<ControlFlag>, rows: seq<ControlFlag>, userId: Id,
                                         from: SystemState, to: SystemState)
    requires ScopePaused(flags, SystemScope, None)
    requires forall k :: 0 <= k < |rows| ==> rows[k].scope == UserScope
    ensures CanTransitionEffective(flags + rows, userId, from, to) == Allowed <==> to == PAUSED
  {
    SystemPauseWins(flags, rows, userId);
  }

  /** Without a system pause the corrected check answers as the written one. */
  lemma EffectiveAgreesWithoutSystemPause(flags: seq<ControlFlag>, userId: Id, from: SystemState, to: SystemState)
    requires !ScopePaused(flags, SystemScope, None)
    ensures CanTransitionEffective(flags, userId, from, to) == CanTransition(flags, userId, from, to)
  {
  }
}
