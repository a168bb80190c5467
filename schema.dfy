/** The relational store the governance layer works on: the closed
    enumerations, one datatype per row kind, and the store itself as an
    object with one field per table. Logs that are only ever appended to are
    sequences in creation order; tables keyed by an id are maps. */
module Schema {
  import opened Base

  datatype SessionPhase = OPENING | ENGAGEMENT | SYNTHESIS | CLOSURE

  datatype SystemState =
    | UNINITIALIZED
    | ASSESSING
    | MODELED
    | INSIGHT_DELIVERY
    | LONGITUDINAL_TRACKING
    | PAUSED

  datatype IdentityModelType = CIM | FIM

  datatype ConfidenceDomain = IDENTITY_MODEL | SYSTEM

  datatype PressureLevel = LOW | MODERATE | HIGH | CRITICAL

  /** Control-flag scope: "system" or "user". */
  datatype Scope = SystemScope | UserScope

  datatype AuditEventType =
    | SYSTEM_PAUSED
    | SYSTEM_RESUMED
    | MUTATION_BLOCKED
    | USER_CONTEXT_CREATED
    | USER_CONTEXT_LAST_SESSION_SET
    | USER_CONTEXT_MODELSET_ACTIVATED
    | USER_CONTEXT_MODELSET_CLEARED
    | USER_CONTEXT_RESET
    | IDENTITY_VERSION_CREATED
    | CONFIDENCE_RECORDED
    | CONFIDENCE_MUTATION_BLOCKED
    | PRESSURE_RECORDED
    | PRESSURE_MUTATION_BLOCKED
    | ACTION_BLOCKED_PAUSED
    | SESSION_PHASE_ADVANCED
    | SESSION_CLOSED
    | SYSTEM_STATE_TRANSITION

  /** Append-only pause/resume decision. */
  datatype ControlFlag = ControlFlag(scope: Scope, scopeId: Option<Id>, paused: bool, reason: Option<string>)

  datatype Session = Session(userId: Id, phase: SessionPhase, state: SystemState, closedAt: Option<Time>)

  datatype ModelSet = ModelSet(userId: Id)

  /** The single mutable anchor per user. */
  datatype UserContext = UserContext(
    userId: Id,
    activeModelSetId: Option<Id>,
    lastClosedSessionId: Option<Id>,
    contextVersion: int)

  datatype IdentityModelVersion = IdentityModelVersion(
    id: Id,
    userId: Id,
    modelSetId: Id,
    modelType: IdentityModelType,
    version: int,
    payload: string)

  datatype ConfidenceState = ConfidenceState(
    userId: Id,
    domain: ConfidenceDomain,
    key: string,
    value: real,
    reason: Option<string>,
    modelSetId: Option<Id>,
    sessionId: Option<Id>)

  datatype PressureState = PressureState(
    userId: Id,
    dpi: real,
    level: PressureLevel,
    reason: Option<string>,
    sessionId: Option<Id>)

  /** The structured `meta` payload each writer attaches to its audit rows. */
  datatype AuditMeta =
    | ControlMeta(scope: Scope, scopeId: Option<Id>, paused: bool, flagReason: Option<string>)
    | ContextMeta(contextVersion: Option<int>, modelSetId: Option<Id>, reason: Option<string>)
    | IdentityMeta(setId: Option<Id>, modelType: Option<IdentityModelType>, versionId: Option<Id>, versionNumber: Option<int>,
                   identityReason: Option<string>)
    | ConfidenceMeta(domain: Option<ConfidenceDomain>, key: Option<string>, value: Option<real>, confidenceReason: Option<string>)
    | PressureMeta(dpi: Option<real>, level: Option<PressureLevel>, pressureReason: Option<string>)
    | PhaseBlockedMeta(attemptedPhase: SessionPhase)
    | PhaseAdvancedMeta(fromPhase: SessionPhase, toPhase: SessionPhase)
    | SessionClosedMeta(closedAt: Time)
    | TransitionBlockedMeta(attemptedTo: SystemState)
    | StateTransitionMeta(fromState: SystemState, toState: SystemState)

  datatype AuditEvent = AuditEvent(userId: Option<Id>, sessionId: Option<Id>, eventType: AuditEventType, meta: AuditMeta)

  /** A read-only copy of the tables a projection may read. */
  datatype ReadView = ReadView(
    flags: seq<ControlFlag>,
    sessions: map<Id, Session>,
    modelSets: map<Id, ModelSet>,
    contexts: map<Id, UserContext>,
    versions: seq<IdentityModelVersion>,
    confidences: seq<ConfidenceState>,
    pressures: seq<PressureState>,
    audit: seq<AuditEvent>)

  /** The durable store, passed explicitly to every service. */
  class Db {
    var flags: seq<ControlFlag>
    var sessions: map<Id, Session>
    var modelSets: map<Id, ModelSet>
    var contexts: map<Id, UserContext>
    var versions: seq<IdentityModelVersion>
    var confidences: seq<ConfidenceState>
    var pressures: seq<PressureState>
    var audit: seq<AuditEvent>

    /** A store whose sessions and model sets were created elsewhere and
        whose logs and contexts are still empty. */
    constructor (sessions: map<Id, Session>, modelSets: map<Id, ModelSet>)
      ensures this.sessions == sessions && this.modelSets == modelSets
      ensures flags == [] && contexts == map[] && versions == []
      ensures confidences == [] && pressures == [] && audit == []
    {
      this.sessions := sessions;
      this.modelSets := modelSets;
      flags, contexts, versions := [], map[], [];
      confidences, pressures, audit := [], [], [];
    }

    function View(): ReadView
      reads this
    {
      ReadView(flags, sessions, modelSets, contexts, versions, confidences, pressures, audit)
    }
  }
}
