/** The projection guard: a side-effect-free structural check of a
    projection input, answering with a tagged result over a closed set of
    error codes. */
module ProjectionGuard {
  import opened Base
  import opened ProjectionTypes

  /** `ProjectionGuardErrorCode` */
  datatype ErrorCode = PAUSED | UNAUTHORIZED | INVALID_INPUT | UNKNOWN_PROJECTION

  function CodeText(c: ErrorCode): string {
    match c
    case PAUSED => "PAUSED"
    case UNAUTHORIZED => "UNAUTHORIZED"
    case INVALID_INPUT => "INVALID_INPUT"
    case UNKNOWN_PROJECTION => "UNKNOWN_PROJECTION"
  }

  /** `ProjectionGuardResult` */
  datatype GuardResult = Passed | Failed(code: ErrorCode, message: string)

  /** `guardOk` */
  function GuardOk(): (r: GuardResult)
    ensures r.Passed?
  {
    Passed
  }

  /** `guardFail`: the not-ok variant, carrying code and message unchanged. */
  function GuardFail(code: ErrorCode, message: string): (r: GuardResult)
    ensures r.Failed? && r.code == code && r.message == message
  {
    Failed(code, message)
  }

  /** The four codes are distinct and so are their texts. */
  lemma CodesDistinct(a: ErrorCode, b: ErrorCode)
    ensures CodeText(a) == CodeText(b) ==> a == b
  {
  }

  /** `!input?.userId || typeof input.userId !== "string"` fails exactly for
      values other than a non-empty string. */
  predicate ValidUserId(userId: Json) {
    userId.JString? && userId.s != ""
  }

  /** The structural requirement on a present `timeRange`. */
  predicate ValidRange(r: TimeRange) {
    r.from.ValidDate? && r.to.ValidDate? && r.from.time <= r.to.time
  }

  /** `check`: userId first, then a present `timeRange`; pause and ownership
      are not enforced, so only INVALID_INPUT is ever produced. */
  function Check(input: ProjectionInput): (r: GuardResult)
    ensures r.Passed? <==> ValidUserId(input.userId) && (input.timeRange.Some? ==> ValidRange(input.timeRange.value))
    ensures r.Failed? ==> r.code == INVALID_INPUT
    ensures !ValidUserId(input.userId) ==> r == GuardFail(INVALID_INPUT, "Missing or invalid userId.")
    ensures ValidUserId(input.userId) && input.timeRange.Some? &&
            (input.timeRange.value.from.NotADate? || input.timeRange.value.to.NotADate?) ==>
      r == GuardFail(INVALID_INPUT, "timeRange.from and timeRange.to must be Date.")
    ensures ValidUserId(input.userId) && input.timeRange.Some? &&
            !(input.timeRange.value.from.NotADate? || input.timeRange.value.to.NotADate?) &&
            (input.timeRange.value.from.InvalidDate? || input.timeRange.value.to.InvalidDate?) ==>
      r == GuardFail(INVALID_INPUT, "timeRange bounds must be valid dates.")
    ensures ValidUserId(input.userId) && input.timeRange.Some? && input.timeRange.value.from.ValidDate? &&
            input.timeRange.value.to.ValidDate? && input.timeRange.value.from.time > input.timeRange.value.to.time ==>
      r == GuardFail(INVALID_INPUT, "timeRange.from must be <= timeRange.to.")
  {
    if !ValidUserId(input.userId) then
      GuardFail(INVALID_INPUT, "Missing or invalid userId.")
    else if input.timeRange.Some? then
      var range := input.timeRange.value;
      if range.from.NotADate? || range.to.NotADate? then
        GuardFail(INVALID_INPUT, "timeRange.from and timeRange.to must be Date.")
      else if range.from.InvalidDate? || range.to.InvalidDate? then
        GuardFail(INVALID_INPUT, "timeRange bounds must be valid dates.")
      else if range.from.time > range.to.time then
        GuardFail(INVALID_INPUT, "timeRange.from must be <= timeRange.to.")
      else
        GuardOk()
    else
      GuardOk()
  }

  /** The userId check comes before any `timeRange` check, a non-Date bound
      is reported before a NaN one, and a one-instant range passes. */
  lemma CheckOrder(input: ProjectionInput, t: Time)
    ensures !ValidUserId(input.userId) ==> Check(input).message == "Missing or invalid userId."
    ensures ValidUserId(input.userId) && input.timeRange == Some(TimeRange(NotADate, InvalidDate)) ==>
      Check(input).message == "timeRange.from and timeRange.to must be Date."
    ensures ValidUserId(input.userId) && input.timeRange == Some(TimeRange(ValidDate(t), ValidDate(t))) ==>
      Check(input).Passed?
  {
  }

  /** Fields outside userId and timeRange never change the verdict. */
  lemma CheckReadsOnlyUserAndRange(input: ProjectionInput, sessionId: Option<string>, modelSetId: Option<string>,
                                   extra: map<string, Json>)
    ensures Check(input.(sessionId := sessionId, modelSetId := modelSetId, extra := extra)) == Check(input)
  {
  }
}
