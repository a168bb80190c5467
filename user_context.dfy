/** The user-context service: the single mutable anchor per user. Every
    mutation runs a pause check, then creates the anchor if it is missing,
    then its ownership or validity checks; a failing check appends a
    MUTATION_BLOCKED audit row and raises. Reset alone skips the pause check. */
module UserContextService {
  import opened Base
  import opened Schema
  import opened ControlPlane

  /** Error messages, as raised and audited. */
  const PausedLastClosed: string := "User is paused; cannot set lastClosedSessionId."
  const SessionMissingLastClosed: string := "Session not found; cannot set lastClosedSessionId."
  const SessionForeignLastClosed: string := "Session does not belong to user; cannot set lastClosedSessionId."
  const SessionOpenLastClosed: string := "Session is not CLOSED; cannot set lastClosedSessionId."
  const PausedActivate: string := "User is paused; cannot activate ModelSet."
  const ModelSetMissingActivate: string := "ModelSet not found; cannot activate ModelSet."
  const ModelSetForeignActivate: string := "ModelSet does not belong to user; cannot activate ModelSet."
  const PausedClear: string := "User is paused; cannot clear active ModelSet."

  /** `isSessionClosed`: CLOSURE and a close time. */
  predicate IsSessionClosed(s: Session) {
    s.phase == CLOSURE && s.closedAt.Some?
  }

  /** The pause check used when none is injected: the user's latest
      user-scope flag, with "User is paused." as the default reason. */
  function DefaultPauseCheck(flags: seq<ControlFlag>, userId: Id): (p: PauseStatus)
    ensures p.isPaused <==> UserPaused(flags, userId)
    ensures p.isPaused ==> p.reason.Some?
    ensures !p.isPaused ==> p.reason.None?
  {
    var latest := GetLatestFlag(flags, UserScope, Some(userId));
    if latest.None? then PauseStatus(false, None)
    else if !latest.value.paused then PauseStatus(false, None)
    else PauseStatus(true, Some(latest.value.reason.GetOr("User is paused.")))
  }

  /** Without a system pause in force, the default check answers exactly as
      the control plane's effective pause; it never reads the system scope. */
  lemma DefaultPauseIsUserPart(flags: seq<ControlFlag>, userId: Id)
    ensures !ScopePaused(flags, SystemScope, None) ==> DefaultPauseCheck(flags, userId) == GetEffectivePause(flags, userId)
    ensures DefaultPauseCheck(flags, userId).isPaused ==> GetEffectivePause(flags, userId).isPaused
  {
  }

  /** The row `ensureUserContext` creates. */
  function FreshContext(userId: Id): UserContext {
    UserContext(userId, None, None, 1)
  }

  function CreatedEvent(userId: Id): AuditEvent {
    AuditEvent(Some(userId), None, USER_CONTEXT_CREATED, ContextMeta(Some(1), None, None))
  }

  /** The audit row `block` appends: the reason plus the session or model-set id. */
  function BlockEvent(userId: Id, reason: string, sessionId: Option<Id>, modelSetId: Option<Id>): AuditEvent {
    AuditEvent(Some(userId), sessionId, MUTATION_BLOCKED, ContextMeta(None, modelSetId, Some(reason)))
  }

  /** What one service call does: its result, the new context table and the
      audit rows it appends, in order. */
  datatype Step = Step(result: Outcome<UserContext>, contexts: map<Id, UserContext>, events: seq<AuditEvent>)

  function Blocked(contexts: map<Id, UserContext>, events: seq<AuditEvent>, userId: Id, reason: string,
                   sessionId: Option<Id>, modelSetId: Option<Id>): Step {
    Step(Err(reason), contexts, events + [BlockEvent(userId, reason, sessionId, modelSetId)])
  }

  /** `ensureUserContext`: the existing row, or a fresh one with version 1
      and one USER_CONTEXT_CREATED audit. It never fails. */
  function EnsureStep(contexts: map<Id, UserContext>, userId: Id): (s: Step)
    ensures userId in s.contexts && s.result == Ok(s.contexts[userId])
    ensures userId in contexts ==> s == Step(Ok(contexts[userId]), contexts, [])
    ensures userId !in contexts ==> s.contexts == contexts[userId := FreshContext(userId)] && s.events == [CreatedEvent(userId)]
  {
    if userId in contexts then Step(Ok(contexts[userId]), contexts, [])
    else Step(Ok(FreshContext(userId)), contexts[userId := FreshContext(userId)], [CreatedEvent(userId)])
  }

  /** `setLastClosedSession` */
  function SetLastClosedStep(pause: PauseStatus, contexts: map<Id, UserContext>, sessions: map<Id, Session>,
                             userId: Id, sessionId: Id): Step {
    if pause.isPaused then
      Blocked(contexts, [], userId, pause.reason.GetOr(PausedLastClosed), Some(sessionId), None)
    else
      var e := EnsureStep(contexts, userId);
      if sessionId !in sessions then
        Blocked(e.contexts, e.events, userId, SessionMissingLastClosed, Some(sessionId), None)
      else if sessions[sessionId].userId != userId then
        Blocked(e.contexts, e.events, userId, SessionForeignLastClosed, Some(sessionId), None)
      else if !IsSessionClosed(sessions[sessionId]) then
        Blocked(e.contexts, e.events, userId, SessionOpenLastClosed, Some(sessionId), None)
      else
        var updated := e.contexts[userId].(lastClosedSessionId := Some(sessionId));
        Step(Ok(updated), e.contexts[userId := updated],
             e.events + [AuditEvent(Some(userId), Some(sessionId), USER_CONTEXT_LAST_SESSION_SET,
                                    ContextMeta(Some(updated.contextVersion), None, None))])
  }

  /** `activateModelSet` */
  function ActivateStep(pause: PauseStatus, contexts: map<Id, UserContext>, modelSets: map<Id, ModelSet>,
                        userId: Id, modelSetId: Id): Step {
    if pause.isPaused then
      Blocked(contexts, [], userId, pause.reason.GetOr(PausedActivate), None, Some(modelSetId))
    else
      var e := EnsureStep(contexts, userId);
      if modelSetId !in modelSets then
        Blocked(e.contexts, e.events, userId, ModelSetMissingActivate, None, Some(modelSetId))
      else if modelSets[modelSetId].userId != userId then
        Blocked(e.contexts, e.events, userId, ModelSetForeignActivate, None, Some(modelSetId))
      else
        var updated := e.contexts[userId].(activeModelSetId := Some(modelSetId));
        Step(Ok(updated), e.contexts[userId := updated],
             e.events + [AuditEvent(Some(userId), None, USER_CONTEXT_MODELSET_ACTIVATED,
                                    ContextMeta(Some(updated.contextVersion), Some(modelSetId), None))])
  }

  /** `clearActiveModelSet` */
  function ClearStep(pause: PauseStatus, contexts: map<Id, UserContext>, userId: Id): Step {
    if pause.isPaused then
      Blocked(contexts, [], userId, pause.reason.GetOr(PausedClear), None, None)
    else
      var e := EnsureStep(contexts, userId);
      var updated := e.contexts[userId].(activeModelSetId := None);
      Step(Ok(updated), e.contexts[userId := updated],
           e.events + [AuditEvent(Some(userId), None, USER_CONTEXT_MODELSET_CLEARED,
                                  ContextMeta(Some(updated.contextVersion), None, None))])
  }

  /** `resetUserContext`: no pause check; both anchors cleared, version + 1. */
  function ResetStep(contexts: map<Id, UserContext>, userId: Id): Step {
    var e := EnsureStep(contexts, userId);
    var old_ := e.contexts[userId];
    var updated := old_.(lastClosedSessionId := None, activeModelSetId := None, contextVersion := old_.contextVersion + 1);
    Step(Ok(updated), e.contexts[userId := updated],
         e.events + [AuditEvent(Some(userId), None, USER_CONTEXT_RESET, ContextMeta(Some(updated.contextVersion), None, None))])
  }

  /** A context row the service can have written: keyed by its user, version
      at least 1, the last closed session is a closed session of that user,
      and the active model set is a model set of that user. */
  predicate ContextValid(userId: Id, c: UserContext, sessions: map<Id, Session>, modelSets: map<Id, ModelSet>) {
    && c.userId == userId
    && c.contextVersion >= 1
    && (c.lastClosedSessionId.Some? ==>
          c.lastClosedSessionId.value in sessions
          && sessions[c.lastClosedSessionId.value].userId == userId
          && IsSessionClosed(sessions[c.lastClosedSessionId.value]))
    && (c.activeModelSetId.Some? ==>
          c.activeModelSetId.value in modelSets && modelSets[c.activeModelSetId.value].userId == userId)
  }

  ghost predicate ContextsValid(contexts: map<Id, UserContext>, sessions: map<Id, Session>, modelSets: map<Id, ModelSet>) {
    forall u :: u in contexts ==> ContextValid(u, contexts[u], sessions, modelSets)
  }

  /** Replacing one row by a valid row keeps the table valid. */
  lemma UpdateKeepsValid(contexts: map<Id, UserContext>, sessions: map<Id, Session>, modelSets: map<Id, ModelSet>,
                         userId: Id, c: UserContext)
    requires ContextsValid(contexts, sessions, modelSets) && ContextValid(userId, c, sessions, modelSets)
    ensures ContextsValid(contexts[userId := c], sessions, modelSets)
  {
  }

  /** `ensureUserContext` keeps every row valid. */
  lemma EnsureKeepsValid(contexts: map<Id, UserContext>, sessions: map<Id, Session>, modelSets: map<Id, ModelSet>, userId: Id)
    requires ContextsValid(contexts, sessions, modelSets)
    ensures ContextsValid(EnsureStep(contexts, userId).contexts, sessions, modelSets)
  {
    if userId !in contexts {
      UpdateKeepsValid(contexts, sessions, modelSets, userId, FreshContext(userId));
    }
  }

  /** `setLastClosedSession` keeps every row valid: it only ever points an
      anchor at a closed session of the same user. */
  lemma SetLastClosedKeepsValid(pause: PauseStatus, contexts: map<Id, UserContext>, sessions: map<Id, Session>,
                                modelSets: map<Id, ModelSet>, userId: Id, sessionId: Id)
    requires ContextsValid(contexts, sessions, modelSets)
    ensures ContextsValid(SetLastClosedStep(pause, contexts, sessions, userId, sessionId).contexts, sessions, modelSets)
  {
    if !pause.isPaused {
      EnsureKeepsValid(contexts, sessions, modelSets, userId);
      var e := EnsureStep(contexts, userId);
      if sessionId in sessions && sessions[sessionId].userId == userId && IsSessionClosed(sessions[sessionId]) {
        UpdateKeepsValid(e.contexts, sessions, modelSets, userId, e.contexts[userId].(lastClosedSessionId := Some(sessionId)));
      }
    }
  }

  /** `activateModelSet` keeps every row valid: it only ever activates a
      model set of the same user. */
  lemma ActivateKeepsValid(pause: PauseStatus, contexts: map<Id, UserContext>, sessions: map<Id, Session>,
                           modelSets: map<Id, ModelSet>, userId: Id, modelSetId: Id)
    requires ContextsValid(contexts, sessions, modelSets)
    ensures ContextsValid(ActivateStep(pause, contexts, modelSets, userId, modelSetId).contexts, sessions, modelSets)
  {
    if !pause.isPaused {
      EnsureKeepsValid(contexts, sessions, modelSets, userId);
      var e := EnsureStep(contexts, userId);
      if modelSetId in modelSets && modelSets[modelSetId].userId == userId {
        UpdateKeepsValid(e.contexts, sessions, modelSets, userId, e.contexts[userId].(activeModelSetId := Some(modelSetId)));
      }
    }
  }

  /** Clearing and resetting keep every row valid. */
  lemma ClearAndResetKeepValid(pause: PauseStatus, contexts: map<Id, UserContext>, sessions: map<Id, Session>,
                               modelSets: map<Id, ModelSet>, userId: Id)
    requires ContextsValid(contexts, sessions, modelSets)
    ensures ContextsValid(ClearStep(pause, contexts, userId).contexts, sessions, modelSets)
    ensures ContextsValid(ResetStep(contexts, userId).contexts, sessions, modelSets)
  {
    EnsureKeepsValid(contexts, sessions, modelSets, userId);
    var e := EnsureStep(contexts, userId);
    var c := e.contexts[userId];
    UpdateKeepsValid(e.contexts, sessions, modelSets, userId, c.(activeModelSetId := None));
    UpdateKeepsValid(e.contexts, sessions, modelSets, userId,
                     c.(lastClosedSessionId := None, activeModelSetId := None, contextVersion := c.contextVersion + 1));
  }

  /** `ensureUserContext` is idempotent: a second call changes nothing and
      audits nothing. */
  lemma EnsureIdempotent(contexts: map<Id, UserContext>, userId: Id)
    ensures var s := EnsureStep(contexts, userId);
            EnsureStep(s.contexts, userId) == Step(s.result, s.contexts, [])
  {
  }

  /** `setLastClosedSession` succeeds exactly when the pause check passes and
      the session exists, belongs to the user and is closed; it then sets only
      `lastClosedSessionId` and emits one USER_CONTEXT_LAST_SESSION_SET. */
  lemma SetLastClosedSpec(pause: PauseStatus, contexts: map<Id, UserContext>, sessions: map<Id, Session>,
                          userId: Id, sessionId: Id)
    ensures var s := SetLastClosedStep(pause, contexts, sessions, userId, sessionId);
      && (s.result.Ok? <==> !pause.isPaused && sessionId in sessions
                            && sessions[sessionId].userId == userId && IsSessionClosed(sessions[sessionId]))
      && (s.result.Ok? ==>
            var before := EnsureStep(contexts, userId).result.value;
            && s.result.value == before.(lastClosedSessionId := Some(sessionId))
            && s.contexts == EnsureStep(contexts, userId).contexts[userId := s.result.value]
            && s.events[|s.events| - 1].eventType == USER_CONTEXT_LAST_SESSION_SET)
  {
  }

  /** `activateModelSet` succeeds exactly when not paused and the model set
      exists and belongs to the user; it then sets only `activeModelSetId`. */
  lemma ActivateSpec(pause: PauseStatus, contexts: map<Id, UserContext>, modelSets: map<Id, ModelSet>,
                     userId: Id, modelSetId: Id)
    ensures var s := ActivateStep(pause, contexts, modelSets, userId, modelSetId);
      && (s.result.Ok? <==> !pause.isPaused && modelSetId in modelSets && modelSets[modelSetId].userId == userId)
      && (s.result.Ok? ==>
            var before := EnsureStep(contexts, userId).result.value;
            && s.result.value == before.(activeModelSetId := Some(modelSetId))
            && s.contexts == EnsureStep(contexts, userId).contexts[userId := s.result.value]
            && s.events[|s.events| - 1].eventType == USER_CONTEXT_MODELSET_ACTIVATED)
  {
  }

  /** `clearActiveModelSet` succeeds whenever the pause check passes; it
      then clears only the active model set of the caller's (ensured) row,
      leaves every other row alone and audits USER_CONTEXT_MODELSET_CLEARED. */
  lemma ClearSpec(pause: PauseStatus, contexts: map<Id, UserContext>, userId: Id)
    ensures var s := ClearStep(pause, contexts, userId);
      && (s.result.Ok? <==> !pause.isPaused)
      && (s.result.Ok? ==>
            var before := EnsureStep(contexts, userId).result.value;
            && s.result.value == before.(activeModelSetId := None)
            && s.contexts == EnsureStep(contexts, userId).contexts[userId := s.result.value]
            && s.events[|s.events| - 1].eventType == USER_CONTEXT_MODELSET_CLEARED)
  {
  }

  /** `resetUserContext` succeeds even while paused, clears both anchors and
      raises the version by exactly one. */
  lemma ResetSpec(contexts: map<Id, UserContext>, userId: Id)
    ensures var s := ResetStep(contexts, userId);
      && s.result.Ok?
      && s.result.value.activeModelSetId.None? && s.result.value.lastClosedSessionId.None?
      && s.result.value.contextVersion == (if userId in contexts then contexts[userId].contextVersion else 1) + 1
      && s.contexts == contexts[userId := s.result.value]
      && s.events[|s.events| - 1].eventType == USER_CONTEXT_RESET
  {
  }

  /** No mutator but reset changes `contextVersion`, for any user. */
  lemma SetLastClosedKeepsVersion(pause: PauseStatus, contexts: map<Id, UserContext>, sessions: map<Id, Session>,
                                  userId: Id, sessionId: Id, u: Id)
    requires u in contexts
    ensures SetLastClosedStep(pause, contexts, sessions, userId, sessionId).contexts[u].contextVersion == contexts[u].contextVersion
  {
    SetLastClosedSpec(pause, contexts, sessions, userId, sessionId);
    SetLastClosedBlocked(pause, contexts, sessions, userId, sessionId);
  }

  lemma ActivateKeepsVersion(pause: PauseStatus, contexts: map<Id, UserContext>, modelSets: map<Id, ModelSet>,
                             userId: Id, modelSetId: Id, u: Id)
    requires u in contexts
    ensures ActivateStep(pause, contexts, modelSets, userId, modelSetId).contexts[u].contextVersion == contexts[u].contextVersion
  {
    ActivateSpec(pause, contexts, modelSets, userId, modelSetId);
    ActivateBlocked(pause, contexts, modelSets, userId, modelSetId);
  }

  lemma ClearKeepsVersion(pause: PauseStatus, contexts: map<Id, UserContext>, userId: Id, u: Id)
    requires u in contexts
    ensures ClearStep(pause, contexts, userId).contexts[u].contextVersion == contexts[u].contextVersion
    ensures u != userId ==> ResetStep(contexts, userId).contexts[u] == contexts[u]
  {
  }

  /** A blocked call raises with the reason it audits as its last row, and
      every context row that existed before is left as it was; only a row the
      call itself created (after the pause check) can be new. */
  lemma SetLastClosedBlocked(pause: PauseStatus, contexts: map<Id, UserContext>, sessions: map<Id, Session>,
                             userId: Id, sessionId: Id)
    ensures var s := SetLastClosedStep(pause, contexts, sessions, userId, sessionId);
      s.result.Err? ==> && s.events[|s.events| - 1] == BlockEvent(userId, s.result.message, Some(sessionId), None)
                        && s.contexts == (if pause.isPaused then contexts else EnsureStep(contexts, userId).contexts)
                        && (pause.isPaused ==> |s.events| == 1)
  {
    if !pause.isPaused {
      var e := EnsureStep(contexts, userId);
      if sessionId in sessions && sessions[sessionId].userId == userId {
        assert SetLastClosedStep(pause, contexts, sessions, userId, sessionId).result.Err? ==> !IsSessionClosed(sessions[sessionId]);
      }
    }
  }

  lemma ActivateBlocked(pause: PauseStatus, contexts: map<Id, UserContext>, modelSets: map<Id, ModelSet>,
                        userId: Id, modelSetId: Id)
    ensures var s := ActivateStep(pause, contexts, modelSets, userId, modelSetId);
      s.result.Err? ==> && s.events[|s.events| - 1] == BlockEvent(userId, s.result.message, None, Some(modelSetId))
                        && s.contexts == (if pause.isPaused then contexts else EnsureStep(contexts, userId).contexts)
                        && (pause.isPaused ==> |s.events| == 1)
  {
  }

  lemma ClearBlocked(pause: PauseStatus, contexts: map<Id, UserContext>, userId: Id)
    ensures var s := ClearStep(pause, contexts, userId);
      s.result.Err? ==> s.contexts == contexts && s.events == [BlockEvent(userId, s.result.message, None, None)]
  {
  }

  /** A call blocked after the pause check still leaves the anchor it created. */
  lemma BlockedAfterPauseKeepsCreatedRow(contexts: map<Id, UserContext>, sessions: map<Id, Session>, userId: Id, sessionId: Id)
    requires userId !in contexts && sessionId !in sessions
    ensures var s := SetLastClosedStep(PauseStatus(false, None), contexts, sessions, userId, sessionId);
      && s.result == Err(SessionMissingLastClosed)
      && s.contexts[userId] == FreshContext(userId)
      && s.events == [CreatedEvent(userId), BlockEvent(userId, SessionMissingLastClosed, Some(sessionId), None)]
  {
  }

  /** The service object: the store plus the pause check it was made with. */
  class ContextService {
    const db: Db
    const pauseCheck: (seq<ControlFlag>, Id) -> PauseStatus

    /** `makeUserContextService`: the injected pause check, or the default. */
    constructor (db: Db, pauseCheck: Option<(seq<ControlFlag>, Id) -> PauseStatus>)
      ensures this.db == db && this.pauseCheck == pauseCheck.GetOr(DefaultPauseCheck)
    {
      this.db := db;
      this.pauseCheck := pauseCheck.GetOr(DefaultPauseCheck);
    }

    /** `block`: audit, then raise. */
    method Block(userId: Id, reason: string, sessionId: Option<Id>, modelSetId: Option<Id>) returns (r: Outcome<UserContext>)
      modifies db`audit
      ensures r == Err(reason)
      ensures db.audit == old(db.audit) + [BlockEvent(userId, reason, sessionId, modelSetId)]
    {
      db.audit := db.audit + [BlockEvent(userId, reason, sessionId, modelSetId)];
      r := Err(reason);
    }

    method EnsureUserContext(userId: Id) returns (ctx: UserContext)
      modifies db`contexts, db`audit
      ensures var s := EnsureStep(old(db.contexts), userId);
              Ok(ctx) == s.result && db.contexts == s.contexts && db.audit == old(db.audit) + s.events
    {
      if userId in db.contexts {
        return db.contexts[userId];
      }
      ctx := FreshContext(userId);
      db.contexts := db.contexts[userId := ctx];
      db.audit := db.audit + [CreatedEvent(userId)];
    }

    method SetLastClosedSession(userId: Id, sessionId: Id) returns (r: Outcome<UserContext>)
      modifies db`contexts, db`audit
      ensures var s := SetLastClosedStep(pauseCheck(db.flags, userId), old(db.contexts), db.sessions, userId, sessionId);
              r == s.result && db.contexts == s.contexts && db.audit == old(db.audit) + s.events
    {
      var pause := pauseCheck(db.flags, userId);
      if pause.isPaused {
        r := Block(userId, pause.reason.GetOr(PausedLastClosed), Some(sessionId), None);
        return;
      }
      var _ := EnsureUserContext(userId);
      if sessionId !in db.sessions {
        r := Block(userId, SessionMissingLastClosed, Some(sessionId), None);
        return;
      }
      var session := db.sessions[sessionId];
      if session.userId != userId {
        r := Block(userId, SessionForeignLastClosed, Some(sessionId), None);
        return;
      }
      if !IsSessionClosed(session) {
        r := Block(userId, SessionOpenLastClosed, Some(sessionId), None);
        return;
      }
      var updated := db.contexts[userId].(lastClosedSessionId := Some(sessionId));
      db.contexts := db.contexts[userId := updated];
      db.audit := db.audit + [AuditEvent(Some(userId), Some(sessionId), USER_CONTEXT_LAST_SESSION_SET,
                                         ContextMeta(Some(updated.contextVersion), None, None))];
      r := Ok(updated);
    }

    method ActivateModelSet(userId: Id, modelSetId: Id) returns (r: Outcome<UserContext>)
      modifies db`contexts, db`audit
      ensures var s := ActivateStep(pauseCheck(db.flags, userId), old(db.contexts), db.modelSets, userId, modelSetId);
              r == s.result && db.contexts == s.contexts && db.audit == old(db.audit) + s.events
    {
      var pause := pauseCheck(db.flags, userId);
      if pause.isPaused {
        r := Block(userId, pause.reason.GetOr(PausedActivate), None, Some(modelSetId));
        return;
      }
      var _ := EnsureUserContext(userId);
      if modelSetId !in db.modelSets {
        r := Block(userId, ModelSetMissingActivate, None, Some(modelSetId));
        return;
      }
      if db.modelSets[modelSetId].userId != userId {
        r := Block(userId, ModelSetForeignActivate, None, Some(modelSetId));
        return;
      }
      var updated := db.contexts[userId].(activeModelSetId := Some(modelSetId));
      db.contexts := db.contexts[userId := updated];
      db.audit := db.audit + [AuditEvent(Some(userId), None, USER_CONTEXT_MODELSET_ACTIVATED,
                                         ContextMeta(Some(updated.contextVersion), Some(modelSetId), None))];
      r := Ok(updated);
    }

    method ClearActiveModelSet(userId: Id) returns (r: Outcome<UserContext>)
      modifies db`contexts, db`audit
      ensures var s := ClearStep(pauseCheck(db.flags, userId), old(db.contexts), userId);
              r == s.result && db.contexts == s.contexts && db.audit == old(db.audit) + s.events
    {
      var pause := pauseCheck(db.flags, userId);
      if pause.isPaused {
        r := Block(userId, pause.reason.GetOr(PausedClear), None, None);
        return;
      }
      var _ := EnsureUserContext(userId);
      var updated := db.contexts[userId].(activeModelSetId := None);
      db.contexts := db.contexts[userId := updated];
      db.audit := db.audit + [AuditEvent(Some(userId), None, USER_CONTEXT_MODELSET_CLEARED,
                                         ContextMeta(Some(updated.contextVersion), None, None))];
      r := Ok(updated);
    }

    method ResetUserContext(userId: Id) returns (r: Outcome<UserContext>)
      modifies db`contexts, db`audit
      ensures var s := ResetStep(old(db.contexts), userId);
              r == s.result && db.contexts == s.contexts && db.audit == old(db.audit) + s.events
    {
      var _ := EnsureUserContext(userId);
      var current := db.contexts[userId];
      var updated := current.(lastClosedSessionId := None, activeModelSetId := None,
                              contextVersion := current.contextVersion + 1);
      db.contexts := db.contexts[userId := updated];
      db.audit := db.audit + [AuditEvent(Some(userId), None, USER_CONTEXT_RESET,
                                         ContextMeta(Some(updated.contextVersion), None, None))];
      r := Ok(updated);
    }
  }
}
