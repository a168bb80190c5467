/** The session routes: advancing a session's phase and closing a session.
    Each is a decision over the store (missing fields, existence, ownership,
    closed-ness, the pause gate, the lifecycle rule) followed by one in-place
    update of the session row and one audit row. */
module SessionRoutes {
  import opened Base
  import opened Schema
  import opened ControlPlane
  import opened SessionLifecycle
  import opened UserContextService
  import opened RouteCommon

  /** Error texts of the responses. */
  const AdvanceMissingFields: string := "Missing userId, sessionId, or target phase."
  const SessionNotFound: string := "Session not found."
  const SessionForeign: string := "Session does not belong to user."
  const SessionAlreadyClosed: string := "Session is already closed."
  const AdvancePaused: string := "System is paused; session phase advance blocked."
  const CloseMissingFields: string := "Missing userId or sessionId."

  function AdvanceBlockedEvent(userId: Id, sessionId: Id, to: SessionPhase): AuditEvent {
    AuditEvent(Some(userId), Some(sessionId), ACTION_BLOCKED_PAUSED, PhaseBlockedMeta(to))
  }

  function AdvancedEvent(userId: Id, sessionId: Id, from: SessionPhase, to: SessionPhase): AuditEvent {
    AuditEvent(Some(userId), Some(sessionId), SESSION_PHASE_ADVANCED, PhaseAdvancedMeta(from, to))
  }

  function ClosedEvent(userId: Id, sessionId: Id, closedAt: Time): AuditEvent {
    AuditEvent(Some(userId), Some(sessionId), SESSION_CLOSED, SessionClosedMeta(closedAt))
  }

  /** `POST /api/session/advance`. The pause gate reads the user's latest
      user-scope flag; the lifecycle rule is checked against the stored
      phase. */
  function AdvanceStep(flags: seq<ControlFlag>, sessions: map<Id, Session>,
                       userId: Option<Id>, sessionId: Option<Id>, to: Option<SessionPhase>): RouteStep
  {
    if !Present(userId) || !Present(sessionId) || to.None? then
      Reject(sessions, 400, AdvanceMissingFields)
    else
      var u, sid, target := userId.value, sessionId.value, to.value;
      if sid !in sessions then Reject(sessions, 404, SessionNotFound)
      else
        var session := sessions[sid];
        if session.userId != u then Reject(sessions, 403, SessionForeign)
        else if session.closedAt.Some? then Reject(sessions, 400, SessionAlreadyClosed)
        else if UserPaused(flags, u) then
          RouteStep(Failure(403, AdvancePaused), sessions,
                    [AdvanceBlockedEvent(u, sid, target)])
        else match AssertPhaseAdvanceAllowed(session.phase, target)
          case Err(m) => Reject(sessions, 400, m)
          case Ok(_) =>
            var updated := session.(phase := target);
            RouteStep(Success(updated), sessions[sid := updated], [AdvancedEvent(u, sid, session.phase, target)])
  }

  /** An advance succeeds exactly when every check passes; it then changes
      only that session's phase and appends one SESSION_PHASE_ADVANCED row
      carrying the stored phase and the new one. */
  lemma AdvanceSpec(flags: seq<ControlFlag>, sessions: map<Id, Session>,
                    userId: Option<Id>, sessionId: Option<Id>, to: Option<SessionPhase>)
    ensures var s := AdvanceStep(flags, sessions, userId, sessionId, to);
      && (s.response.Success? <==>
            && Present(userId) && Present(sessionId) && to.Some?
            && sessionId.value in sessions
            && sessions[sessionId.value].userId == userId.value
            && sessions[sessionId.value].closedAt.None?
            && !UserPaused(flags, userId.value)
            && CanAdvancePhase(sessions[sessionId.value].phase, to.value))
      && (s.response.Success? ==>
            var before := sessions[sessionId.value];
            && s.response.session == before.(phase := to.value)
            && s.sessions == sessions[sessionId.value := s.response.session]
            && s.events == [AdvancedEvent(userId.value, sessionId.value, before.phase, to.value)])
  {
  }

  /** A rejected advance leaves every session as it was; it appends one
      ACTION_BLOCKED_PAUSED row when (and only when) the pause gate stopped
      it, with status 403, and nothing otherwise. */
  lemma AdvanceRejections(flags: seq<ControlFlag>, sessions: map<Id, Session>,
                          userId: Option<Id>, sessionId: Option<Id>, to: Option<SessionPhase>)
    ensures var s := AdvanceStep(flags, sessions, userId, sessionId, to);
      s.response.Failure? ==>
        && s.sessions == sessions
        && (s.events != [] <==>
              && Present(userId) && Present(sessionId) && to.Some?
              && sessionId.value in sessions && sessions[sessionId.value].userId == userId.value
              && sessions[sessionId.value].closedAt.None? && UserPaused(flags, userId.value))
        && (s.events != [] ==>
              s.response.status == 403 && s.events == [AdvanceBlockedEvent(userId.value, sessionId.value, to.value)])
  {
  }

  /** A stored phase that forbids the step is reported with the lifecycle's
      own message, as a 400. */
  lemma AdvanceInvalidPhaseIs400(flags: seq<ControlFlag>, sessions: map<Id, Session>, userId: Id, sessionId: Id,
                                 to: SessionPhase)
    requires userId != "" && sessionId != "" && sessionId in sessions
    requires sessions[sessionId].userId == userId && sessions[sessionId].closedAt.None?
    requires !UserPaused(flags, userId) && !CanAdvancePhase(sessions[sessionId].phase, to)
    ensures AdvanceStep(flags, sessions, Some(userId), Some(sessionId), Some(to)).response ==
            Failure(400, "Invalid phase transition: " + PhaseName(sessions[sessionId].phase) + " -> " + PhaseName(to))
  {
  }

  /** `POST /api/session/close`. No pause gate; closing a closed session
      answers with it unchanged. */
  function CloseStep(sessions: map<Id, Session>, userId: Option<Id>, sessionId: Option<Id>, now: Time): RouteStep {
    if !Present(userId) || !Present(sessionId) then Reject(sessions, 400, CloseMissingFields)
    else
      var u, sid := userId.value, sessionId.value;
      if sid !in sessions then Reject(sessions, 404, SessionNotFound)
      else
        var session := sessions[sid];
        if session.userId != u then Reject(sessions, 403, SessionForeign)
        else if session.closedAt.Some? then RouteStep(Success(session), sessions, [])
        else if session.phase != CLOSURE then
          Reject(sessions, 400, "Cannot close session unless phase is CLOSURE (current: " + PhaseName(session.phase) + ").")
        else
          var closed := session.(closedAt := Some(now));
          RouteStep(Success(closed), sessions[sid := closed], [ClosedEvent(u, sid, now)])
  }

  /** A close succeeds exactly for the owner of an existing session that is
      already closed or in CLOSURE; a first close stamps `closedAt` and
      appends one SESSION_CLOSED row, and the closed session is one
      `setLastClosedSession` accepts. */
  lemma CloseSpec(sessions: map<Id, Session>, userId: Option<Id>, sessionId: Option<Id>, now: Time)
    ensures var s := CloseStep(sessions, userId, sessionId, now);
      && (s.response.Success? <==>
            && Present(userId) && Present(sessionId) && sessionId.value in sessions
            && sessions[sessionId.value].userId == userId.value
            && (sessions[sessionId.value].closedAt.Some? || sessions[sessionId.value].phase == CLOSURE))
      && (s.response.Failure? ==> s.sessions == sessions && s.events == [])
      && (s.response.Success? ==>
            && IsSessionClosed(s.response.session) == (s.response.session.phase == CLOSURE)
            && s.response.session.closedAt.Some?
            && s.sessions == sessions[sessionId.value := s.response.session])
      && (s.response.Success? && sessions[sessionId.value].closedAt.Some? ==>
            s.response.session == sessions[sessionId.value] && s.sessions == sessions && s.events == [])
      && (s.response.Success? && sessions[sessionId.value].closedAt.None? ==>
            && s.response.session == sessions[sessionId.value].(closedAt := Some(now))
            && IsSessionClosed(s.response.session)
            && s.events == [ClosedEvent(userId.value, sessionId.value, now)])
  {
  }

  /** Closing twice is closing once: the second call answers with the same
      session, changes nothing and audits nothing. */
  lemma CloseIdempotent(sessions: map<Id, Session>, userId: Option<Id>, sessionId: Option<Id>, t1: Time, t2: Time)
    requires CloseStep(sessions, userId, sessionId, t1).response.Success?
    ensures var first := CloseStep(sessions, userId, sessionId, t1);
      CloseStep(first.sessions, userId, sessionId, t2) == RouteStep(first.response, first.sessions, [])
  {
  }

  /** A session in CLOSURE that this route has closed is one
      `setLastClosedSession` then accepts for its owner. */
  lemma CloseEnablesLastClosed(sessions: map<Id, Session>, contexts: map<Id, UserContext>,
                               userId: Id, sessionId: Id, now: Time)
    requires userId != "" && sessionId != ""
    requires sessionId in sessions && sessions[sessionId].userId == userId && sessions[sessionId].phase == CLOSURE
    ensures var s := CloseStep(sessions, Some(userId), Some(sessionId), now);
      && s.response.Success?
      && SetLastClosedStep(PauseStatus(false, None), contexts, s.sessions, userId, sessionId).result.Ok?
  {
    var s := CloseStep(sessions, Some(userId), Some(sessionId), now);
    SetLastClosedSpec(PauseStatus(false, None), contexts, s.sessions, userId, sessionId);
  }

  /** Every closed session of `before` is still there, unchanged, in `after`. */
  ghost predicate KeepsClosedSessions(before: map<Id, Session>, after: map<Id, Session>) {
    forall id :: id in before && IsSessionClosed(before[id]) ==> id in after && after[id] == before[id]
  }

  /** A session-table change that keeps every closed session cannot break a
      context row's claim that its last closed session is a closed session
      of its user. */
  lemma ClosedKeptKeepsValid(contexts: map<Id, UserContext>, before: map<Id, Session>, after: map<Id, Session>,
                             modelSets: map<Id, ModelSet>)
    requires ContextsValid(contexts, before, modelSets) && KeepsClosedSessions(before, after)
    ensures ContextsValid(contexts, after, modelSets)
  {
    forall u | u in contexts
      ensures ContextValid(u, contexts[u], after, modelSets)
    {
      assert ContextValid(u, contexts[u], before, modelSets);
    }
  }

  /** An advance never touches a closed session. */
  lemma AdvanceKeepsClosed(flags: seq<ControlFlag>, sessions: map<Id, Session>,
                           userId: Option<Id>, sessionId: Option<Id>, to: Option<SessionPhase>)
    ensures KeepsClosedSessions(sessions, AdvanceStep(flags, sessions, userId, sessionId, to).sessions)
  {
    var s := AdvanceStep(flags, sessions, userId, sessionId, to);
    AdvanceSpec(flags, sessions, userId, sessionId, to);
    AdvanceRejections(flags, sessions, userId, sessionId, to);
    if s.response.Success? {
      forall id | id in sessions && IsSessionClosed(sessions[id])
        ensures id in s.sessions && s.sessions[id] == sessions[id]
      {
        assert id != sessionId.value;
      }
    }
  }

  /** A close never changes a session that is already closed. */
  lemma CloseKeepsClosed(sessions: map<Id, Session>, userId: Option<Id>, sessionId: Option<Id>, now: Time)
    ensures KeepsClosedSessions(sessions, CloseStep(sessions, userId, sessionId, now).sessions)
  {
    var s := CloseStep(sessions, userId, sessionId, now);
    CloseSpec(sessions, userId, sessionId, now);
    if s.response.Success? && sessions[sessionId.value].closedAt.None? {
      forall id | id in sessions && IsSessionClosed(sessions[id])
        ensures id in s.sessions && s.sessions[id] == sessions[id]
      {
        assert id != sessionId.value;
      }
    }
  }

  /** Both routes keep every context row valid. */
  lemma RoutesKeepContextsValid(flags: seq<ControlFlag>, sessions: map<Id, Session>,
                                contexts: map<Id, UserContext>, modelSets: map<Id, ModelSet>,
                                userId: Option<Id>, sessionId: Option<Id>, to: Option<SessionPhase>, now: Time)
    requires ContextsValid(contexts, sessions, modelSets)
    ensures ContextsValid(contexts, AdvanceStep(flags, sessions, userId, sessionId, to).sessions, modelSets)
    ensures ContextsValid(contexts, CloseStep(sessions, userId, sessionId, now).sessions, modelSets)
  {
    AdvanceKeepsClosed(flags, sessions, userId, sessionId, to);
    ClosedKeptKeepsValid(contexts, sessions, AdvanceStep(flags, sessions, userId, sessionId, to).sessions, modelSets);
    CloseKeepsClosed(sessions, userId, sessionId, now);
    ClosedKeptKeepsValid(contexts, sessions, CloseStep(sessions, userId, sessionId, now).sessions, modelSets);
  }

  /** The route handlers over the store. */
  method Advance(db: Db, userId: Option<Id>, sessionId: Option<Id>, to: Option<SessionPhase>) returns (resp: Response)
    modifies db`sessions, db`audit
    ensures var s := AdvanceStep(db.flags, old(db.sessions), userId, sessionId, to);
      resp == s.response && db.sessions == s.sessions && db.audit == old(db.audit) + s.events
  {
    if !Present(userId) || !Present(sessionId) || to.None? {
      return Failure(400, AdvanceMissingFields);
    }
    var u, sid, target := userId.value, sessionId.value, to.value;
    if sid !in db.sessions {
      return Failure(404, SessionNotFound);
    }
    var session := db.sessions[sid];
    if session.userId != u {
      return Failure(403, SessionForeign);
    }
    if session.closedAt.Some? {
      return Failure(400, SessionAlreadyClosed);
    }
    if UserPaused(db.flags, u) {
      db.audit := db.audit + [AdvanceBlockedEvent(u, sid, target)];
      return Failure(403, AdvancePaused);
    }
    var allowed := AssertPhaseAdvanceAllowed(session.phase, target);
    if allowed.Err? {
      return Failure(400, allowed.message);
    }
    var updated := session.(phase := target);
    db.sessions := db.sessions[sid := updated];
    db.audit := db.audit + [AdvancedEvent(u, sid, session.phase, target)];
    return Success(updated);
  }

  method Close(db: Db, userId: Option<Id>, sessionId: Option<Id>, now: Time) returns (resp: Response)
    modifies db`sessions, db`audit
    ensures var s := CloseStep(old(db.sessions), userId, sessionId, now);
      resp == s.response && db.sessions == s.sessions && db.audit == old(db.audit) + s.events
  {
    if !Present(userId) || !Present(sessionId) {
      return Failure(400, CloseMissingFields);
    }
    var u, sid := userId.value, sessionId.value;
    if sid !in db.sessions {
      return Failure(404, SessionNotFound);
    }
    var session := db.sessions[sid];
    if session.userId != u {
      return Failure(403, SessionForeign);
    }
    if session.closedAt.Some? {
      return Success(session);
    }
    if session.phase != CLOSURE {
      return Failure(400, "Cannot close session unless phase is CLOSURE (current: " + PhaseName(session.phase) + ").");
    }
    var closed := session.(closedAt := Some(now));
    db.sessions := db.sessions[sid := closed];
    db.audit := db.audit + [ClosedEvent(u, sid, now)];
    return Success(closed);
  }
}
