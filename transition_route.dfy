/** The system-state transition route: a route-level pause gate on the
    user's latest user-scope flag, then the state machine's rules with the
    caller's `from` and no identity models, then the session's `state`
    updated in place and one audit row. */
module TransitionRoute {
  import opened Base
  import opened Schema
  import opened ControlPlane
  import opened SystemStateMachine
  import opened RouteCommon

  /** Error texts of the responses. */
  const TransitionMissingFields: string := "Missing userId, sessionId, from, or to."
  const TransitionPaused: string := "System is paused; transition blocked."

  /** The error the store raises when the row to update does not exist; its
      exact wording belongs to the database client. */
  const RecordNotFound: string := "Record to update not found."

  function TransitionBlockedEvent(userId: Id, sessionId: Id, to: SystemState): AuditEvent {
    AuditEvent(Some(userId), Some(sessionId), ACTION_BLOCKED_PAUSED, TransitionBlockedMeta(to))
  }

  function TransitionedEvent(userId: Id, sessionId: Id, from: SystemState, to: SystemState): AuditEvent {
    AuditEvent(Some(userId), Some(sessionId), SYSTEM_STATE_TRANSITION, StateTransitionMeta(from, to))
  }

  /** The context the route hands to the state machine: models never
      present, pause as read by the gate. */
  function RouteContext(isPaused: bool): StateContext {
    StateContext(false, isPaused)
  }

  /** `POST /api/system/transition` */
  function TransitionStep(flags: seq<ControlFlag>, sessions: map<Id, Session>, userId: Option<Id>,
                          sessionId: Option<Id>, from: Option<SystemState>, to: Option<SystemState>): RouteStep
  {
    if !Present(userId) || !Present(sessionId) || from.None? || to.None? then
      Reject(sessions, 400, TransitionMissingFields)
    else
      var u, sid := userId.value, sessionId.value;
      var isPaused := UserPaused(flags, u);
      if isPaused then
        RouteStep(Failure(403, TransitionPaused), sessions,
                  [TransitionBlockedEvent(u, sid, to.value)])
      else match AssertTransitionAllowed(from.value, to.value, RouteContext(isPaused))
        case Some(v) => Reject(sessions, 400, ViolationMessage(v))
        case None =>
          if sid !in sessions then Reject(sessions, 400, RecordNotFound)
          else
            var updated := sessions[sid].(state := to.value);
            RouteStep(Success(updated), sessions[sid := updated], [TransitionedEvent(u, sid, from.value, to.value)])
  }

  /** A transition succeeds exactly when the fields are present, the user is
      not paused, the target is not INSIGHT_DELIVERY, the caller's pair is in
      the table and the session exists; it then sets only that session's
      state and appends one SYSTEM_STATE_TRANSITION row with the pair. */
  lemma TransitionSpec(flags: seq<ControlFlag>, sessions: map<Id, Session>, userId: Option<Id>,
                       sessionId: Option<Id>, from: Option<SystemState>, to: Option<SystemState>)
    ensures var s := TransitionStep(flags, sessions, userId, sessionId, from, to);
      && (s.response.Success? <==>
            && Present(userId) && Present(sessionId) && from.Some? && to.Some?
            && !UserPaused(flags, userId.value)
            && to.value != INSIGHT_DELIVERY
            && (from.value, to.value) in TransitionPairs
            && sessionId.value in sessions)
      && (s.response.Success? ==>
            && s.response.session == sessions[sessionId.value].(state := to.value)
            && s.sessions == sessions[sessionId.value := s.response.session]
            && s.events == [TransitionedEvent(userId.value, sessionId.value, from.value, to.value)])
  {
  }

  /** A rejection changes no session; only the pause gate audits, once,
      with 403. A rule violation is a 400 carrying the rule's message. */
  lemma TransitionRejections(flags: seq<ControlFlag>, sessions: map<Id, Session>, userId: Option<Id>,
                             sessionId: Option<Id>, from: Option<SystemState>, to: Option<SystemState>)
    ensures var s := TransitionStep(flags, sessions, userId, sessionId, from, to);
      && (s.response.Failure? ==> s.sessions == sessions)
      && (s.response.Failure? && s.events != [] <==>
            Present(userId) && Present(sessionId) && from.Some? && to.Some? && UserPaused(flags, userId.value))
      && (s.response.Failure? && s.events != [] ==>
            s.response.status == 403 && s.events == [TransitionBlockedEvent(userId.value, sessionId.value, to.value)])
      && (Present(userId) && Present(sessionId) && from.Some? && to.Some? && !UserPaused(flags, userId.value) &&
          AssertTransitionAllowed(from.value, to.value, RouteContext(false)).Some? ==>
            s.response == Failure(400, ViolationMessage(AssertTransitionAllowed(from.value, to.value, RouteContext(false)).value)))
  {
  }

  /** With models fixed absent, this route never reaches INSIGHT_DELIVERY,
      even from MODELED where the table allows it. */
  lemma NeverInsightDelivery(flags: seq<ControlFlag>, sessions: map<Id, Session>, userId: Option<Id>,
                             sessionId: Option<Id>, from: Option<SystemState>)
    ensures var s := TransitionStep(flags, sessions, userId, sessionId, from, Some(INSIGHT_DELIVERY));
      s.response.Failure? && s.sessions == sessions
    ensures Present(userId) && Present(sessionId) && from.Some? && !UserPaused(flags, userId.value) ==>
      TransitionStep(flags, sessions, userId, sessionId, from, Some(INSIGHT_DELIVERY)).response ==
      Failure(400, ViolationMessage(MissingModels))
  {
  }

  /** The gate is stricter than the state machine: a paused user cannot even
      move to PAUSED here, though the machine's own pause rule lets that
      through. */
  lemma PausedBlocksEvenPause(flags: seq<ControlFlag>, sessions: map<Id, Session>, userId: Id, sessionId: Id,
                              from: SystemState)
    requires userId != "" && sessionId != "" && UserPaused(flags, userId)
    ensures TransitionStep(flags, sessions, Some(userId), Some(sessionId), Some(from), Some(PAUSED)) ==
            RouteStep(Failure(403, TransitionPaused), sessions,
                      [TransitionBlockedEvent(userId, sessionId, PAUSED)])
    ensures from != PAUSED ==> AssertTransitionAllowed(from, PAUSED, StateContext(false, true)).None?
  {
  }

  /** The rules are checked against the caller's `from`, not the stored
      state, and nobody checks who owns the session: the outcome is the same
      whatever the stored state and owner are. */
  lemma StoredStateAndOwnerIgnored(flags: seq<ControlFlag>, sessions: map<Id, Session>, userId: Option<Id>,
                                   sessionId: Id, from: Option<SystemState>, to: Option<SystemState>,
                                   otherState: SystemState, otherOwner: Id)
    requires sessionId in sessions
    ensures var other := sessions[sessionId := sessions[sessionId].(state := otherState, userId := otherOwner)];
      TransitionStep(flags, other, userId, Some(sessionId), from, to).response.Success? ==
      TransitionStep(flags, sessions, userId, Some(sessionId), from, to).response.Success?
  {
  }

  /** The route handler over the store. */
  method Transition(db: Db, userId: Option<Id>, sessionId: Option<Id>, from: Option<SystemState>,
                    to: Option<SystemState>) returns (resp: Response)
    modifies db`sessions, db`audit
    ensures var s := TransitionStep(db.flags, old(db.sessions), userId, sessionId, from, to);
      resp == s.response && db.sessions == s.sessions && db.audit == old(db.audit) + s.events
  {
    if !Present(userId) || !Present(sessionId) || from.None? || to.None? {
      return Failure(400, TransitionMissingFields);
    }
    var u, sid := userId.value, sessionId.value;
    var latestControl := GetLatestFlag(db.flags, UserScope, Some(u));
    var isPaused := latestControl.Some? && latestControl.value.paused;
    var ctx := RouteContext(isPaused);
    if ctx.isPaused {
      db.audit := db.audit + [TransitionBlockedEvent(u, sid, to.value)];
      return Failure(403, TransitionPaused);
    }
    var violation := AssertTransitionAllowed(from.value, to.value, ctx);
    if violation.Some? {
      return Failure(400, ViolationMessage(violation.value));
    }
    if sid !in db.sessions {
      return Failure(400, RecordNotFound);
    }
    var updated := db.sessions[sid].(state := to.value);
    db.sessions := db.sessions[sid := updated];
    db.audit := db.audit + [TransitionedEvent(u, sid, from.value, to.value)];
    return Success(updated);
  }
}
