/** The closed vocabularies and shapes the projection pipeline works with. */
module ProjectionTypes {
  import opened Base
  import opened Schema

  /** The closed set of projection names. */
  datatype ProjectionName =
    | SessionTimeline
    | IdentityVersionTimeline
    | ConfidenceSeries
    | PressureSeries
    | ControlFlagsTimeline
    | SystemStateTimeline

  function NameText(n: ProjectionName): string {
    match n
    case SessionTimeline => "session.timeline"
    case IdentityVersionTimeline => "identity.versionTimeline"
    case ConfidenceSeries => "confidence.series"
    case PressureSeries => "pressure.series"
    case ControlFlagsTimeline => "controlFlags.timeline"
    case SystemStateTimeline => "systemState.timeline"
  }

  /** The source models a projection may read. */
  datatype SourceModelKey =
    | UserModel
    | SessionModel
    | UserContextModel
    | ModelSetModel
    | IdentityModelVersionModel
    | ConfidenceStateModel
    | PressureStateModel
    | ControlFlagModel
    | AuditEventModel

  /** JSON-like values: what a projection input field can hold at run time
      and what the key-sorted serialisation works on. */
  datatype Json =
    | JNull
    | JBool(b: bool)
    | JString(s: string)
    | JArray(items: seq<Json>)
    | JObject(fields: seq<Field>)

  datatype Field = Field(key: string, value: Json)

  /** A `timeRange` bound as found at run time: a Date with a time, a Date
      whose time is NaN, or something that is not a Date at all. */
  datatype DateValue = ValidDate(time: Time) | InvalidDate | NotADate

  datatype TimeRange = TimeRange(from: DateValue, to: DateValue)

  /** `ProjectionInput`. `userId` is kept as a run-time value because the
      guard checks its type; `extra` holds whatever further fields a caller's
      input type adds. */
  datatype ProjectionInput = ProjectionInput(
    userId: Json,
    sessionId: Option<string>,
    modelSetId: Option<string>,
    timeRange: Option<TimeRange>,
    extra: map<string, Json>)

  /** `ProjectionContract`: `validate` yields the message it would throw,
      `run` reads a snapshot of the store and yields its output or the
      message it throws. */
  datatype Contract = Contract(
    name: ProjectionName,
    sources: seq<SourceModelKey>,
    validate: ProjectionInput -> Option<string>,
    run: (ReadView, ProjectionInput) -> Outcome<Json>)

  /** `ProjectionAccessAudit` */
  datatype ProjectionAccessAudit = ProjectionAccessAudit(
    userId: string,
    sessionId: Option<string>,
    projection: ProjectionName,
    inputsHash: string,
    sources: seq<SourceModelKey>,
    occurredAt: Time)
}
