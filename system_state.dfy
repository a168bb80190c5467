/** The six-state system-state automaton and the three ordered rules that
    decide whether a transition may happen. */
module SystemStateMachine {
  import opened Base
  import opened Schema

  /** Error messages of the first two rules. */
  const PauseLockMessage: string := "System is paused; transitions are blocked."
  const MissingModelsMessage: string := "Cannot enter INSIGHT_DELIVERY without identity models."

  /** `allowedTransitions` */
  function AllowedTransitions(from: SystemState): seq<SystemState> {
    match from
    case UNINITIALIZED => [ASSESSING, PAUSED]
    case ASSESSING => [MODELED, PAUSED]
    case MODELED => [INSIGHT_DELIVERY, LONGITUDINAL_TRACKING, PAUSED]
    case INSIGHT_DELIVERY => [LONGITUDINAL_TRACKING, PAUSED]
    case LONGITUDINAL_TRACKING => [ASSESSING, PAUSED]
    case PAUSED => [UNINITIALIZED]
  }

  /** Closed table lookup. */
  predicate CanTransition(from: SystemState, to: SystemState) {
    to in AllowedTransitions(from)
  }

  /** The twelve edges of the table, listed once more as a set. */
  const TransitionPairs: set<(SystemState, SystemState)> := {
    (UNINITIALIZED, ASSESSING), (UNINITIALIZED, PAUSED),
    (ASSESSING, MODELED), (ASSESSING, PAUSED),
    (MODELED, INSIGHT_DELIVERY), (MODELED, LONGITUDINAL_TRACKING), (MODELED, PAUSED),
    (INSIGHT_DELIVERY, LONGITUDINAL_TRACKING), (INSIGHT_DELIVERY, PAUSED),
    (LONGITUDINAL_TRACKING, ASSESSING), (LONGITUDINAL_TRACKING, PAUSED),
    (PAUSED, UNINITIALIZED)
  }

  /** `StateContext`: whether identity models exist and whether the caller is paused. */
  datatype StateContext = StateContext(hasModels: bool, isPaused: bool)

  /** Which rule a rejected transition violated. */
  datatype TransitionViolation =
    | PauseLock
    | MissingModels
    | InvalidTransition(from: SystemState, to: SystemState)

  function StateName(s: SystemState): string {
    match s
    case UNINITIALIZED => "UNINITIALIZED"
    case ASSESSING => "ASSESSING"
    case MODELED => "MODELED"
    case INSIGHT_DELIVERY => "INSIGHT_DELIVERY"
    case LONGITUDINAL_TRACKING => "LONGITUDINAL_TRACKING"
    case PAUSED => "PAUSED"
  }

  /** The message of the error raised for each violation. */
  function ViolationMessage(v: TransitionViolation): string {
    match v
    case PauseLock => PauseLockMessage
    case MissingModels => MissingModelsMessage
    case InvalidTransition(from, to) => "Invalid transition: " + StateName(from) + " -> " + StateName(to)
  }

  /** `assertTransitionAllowed`: None when the transition may happen,
      otherwise the first rule (in checking order) that it violates. */
  function AssertTransitionAllowed(from: SystemState, to: SystemState, ctx: StateContext): (r: Option<TransitionViolation>)
    ensures r.None? <==>
      && !(ctx.isPaused && to != PAUSED)
      && !(to == INSIGHT_DELIVERY && !ctx.hasModels)
      && (from, to) in TransitionPairs
    ensures r.Some? && r.value.InvalidTransition? ==> r.value == InvalidTransition(from, to)
  {
    if ctx.isPaused && to != PAUSED then Some(PauseLock)
    else if to == INSIGHT_DELIVERY && !ctx.hasModels then Some(MissingModels)
    else if !CanTransition(from, to) then Some(InvalidTransition(from, to))
    else None
  }

  /** The table holds for exactly the twelve listed pairs. */
  lemma TableIsTwelvePairs(from: SystemState, to: SystemState)
    ensures CanTransition(from, to) <==> (from, to) in TransitionPairs
    ensures |TransitionPairs| == 12
  {
    TableSize();
  }

  lemma TableSize()
    ensures |TransitionPairs| == 12
  {
    var early := {(UNINITIALIZED, ASSESSING), (UNINITIALIZED, PAUSED),
                  (ASSESSING, MODELED), (ASSESSING, PAUSED),
                  (MODELED, INSIGHT_DELIVERY), (MODELED, LONGITUDINAL_TRACKING)};
    var late := {(MODELED, PAUSED),
                 (INSIGHT_DELIVERY, LONGITUDINAL_TRACKING), (INSIGHT_DELIVERY, PAUSED),
                 (LONGITUDINAL_TRACKING, ASSESSING), (LONGITUDINAL_TRACKING, PAUSED),
                 (PAUSED, UNINITIALIZED)};
    assert |early| == 6 && |late| == 6;
    assert early * late == {};
    assert TransitionPairs == early + late;
  }

  /** Every state but PAUSED may enter PAUSED; PAUSED may only go to
      UNINITIALIZED, so PAUSED → PAUSED is not in the table. */
  lemma PausedEdges(s: SystemState)
    ensures s != PAUSED ==> CanTransition(s, PAUSED)
    ensures CanTransition(PAUSED, s) <==> s == UNINITIALIZED
  {
  }

  /** Pause is checked first: it wins whatever the other two rules say. */
  lemma PauseOverridesTable(from: SystemState, to: SystemState, hasModels: bool)
    requires to != PAUSED
    ensures AssertTransitionAllowed(from, to, StateContext(hasModels, true)) == Some(PauseLock)
  {
  }

  /** Without models INSIGHT_DELIVERY is refused even from MODELED, where the
      table allows it; with models and no pause the same call succeeds. */
  lemma InsightNeedsModels(from: SystemState)
    ensures AssertTransitionAllowed(from, INSIGHT_DELIVERY, StateContext(false, false)) == Some(MissingModels)
    ensures AssertTransitionAllowed(MODELED, INSIGHT_DELIVERY, StateContext(true, false)).None?
  {
  }

  /** The error raised is the first violated rule in the order pause, models, table. */
  lemma ViolationPrecedence(from: SystemState, to: SystemState, ctx: StateContext)
    ensures AssertTransitionAllowed(from, to, ctx) == Some(MissingModels) ==>
      !(ctx.isPaused && to != PAUSED) && to == INSIGHT_DELIVERY && !ctx.hasModels
    ensures AssertTransitionAllowed(from, to, ctx).Some? && AssertTransitionAllowed(from, to, ctx).value.InvalidTransition? ==>
      !(ctx.isPaused && to != PAUSED) && !(to == INSIGHT_DELIVERY && !ctx.hasModels) && !CanTransition(from, to)
  {
  }
}
