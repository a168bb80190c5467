/** Pressure readings: an append-only log of DPI values bounded to [0, 100],
    each stored with the level derived from it by fixed thresholds. */
module PressureStates {
  import opened Base
  import opened Schema

  /** Error messages, as raised and audited. */
  const DpiOutOfRange: string := "DPI must be between 0 and 100."

  /** Position of a level on the LOW < MODERATE < HIGH < CRITICAL scale. */
  function LevelRank(level: PressureLevel): nat {
    match level
    case LOW => 0
    case MODERATE => 1
    case HIGH => 2
    case CRITICAL => 3
  }

  /** `deriveLevel`: raises outside [0, 100]; otherwise the 25-wide band the
      value falls into, the top band closed at 100. */
  function DeriveLevel(dpi: real): (r: Outcome<PressureLevel>)
    ensures r.Err? <==> dpi < 0.0 || dpi > 100.0
    ensures r.Err? ==> r.message == DpiOutOfRange
    ensures r.Ok? ==> 25.0 * LevelRank(r.value) as real <= dpi
    ensures r.Ok? && r.value != CRITICAL ==> dpi < 25.0 * (LevelRank(r.value) + 1) as real
  {
    if dpi < 0.0 || dpi > 100.0 then Err(DpiOutOfRange)
    else if dpi < 25.0 then Ok(LOW)
    else if dpi < 50.0 then Ok(MODERATE)
    else if dpi < 75.0 then Ok(HIGH)
    else Ok(CRITICAL)
  }

  /** A larger DPI never yields a lower level. */
  lemma DeriveLevelMonotone(a: real, b: real)
    requires 0.0 <= a <= b <= 100.0
    ensures DeriveLevel(a).Ok? && DeriveLevel(b).Ok?
    ensures LevelRank(DeriveLevel(a).value) <= LevelRank(DeriveLevel(b).value)
  {
  }

  /** The readings the smoke scenario relies on, and the band edges. */
  lemma DeriveLevelExamples()
    ensures DeriveLevel(10.0) == Ok(LOW) && DeriveLevel(60.0) == Ok(HIGH)
    ensures DeriveLevel(0.0) == Ok(LOW) && DeriveLevel(25.0) == Ok(MODERATE)
    ensures DeriveLevel(75.0) == Ok(CRITICAL) && DeriveLevel(100.0) == Ok(CRITICAL)
    ensures DeriveLevel(101.0).Err? && DeriveLevel(-1.0).Err?
  {
  }

  /** Invariant of the log: every stored level is the one derived from its DPI. */
  ghost predicate PressuresConsistent(pressures: seq<PressureState>) {
    forall i :: 0 <= i < |pressures| ==> DeriveLevel(pressures[i].dpi) == Ok(pressures[i].level)
  }

  function PressureBlockEvent(userId: Id): AuditEvent {
    AuditEvent(Some(userId), None, PRESSURE_MUTATION_BLOCKED,
               PressureMeta(None, None, Some(DpiOutOfRange)))
  }

  function PressureRecordedEvent(row: PressureState): AuditEvent {
    AuditEvent(Some(row.userId), row.sessionId, PRESSURE_RECORDED,
               PressureMeta(Some(row.dpi), Some(row.level), row.reason))
  }

  /** `recordPressure`: an out-of-range DPI is audited and raised with
      nothing appended; otherwise one row carrying the derived level is
      appended and then one PRESSURE_RECORDED audit. */
  method RecordPressure(db: Db, userId: Id, dpi: real, reason: Option<string>, sessionId: Option<Id>)
    returns (r: Outcome<PressureState>)
    modifies db`pressures, db`audit
    ensures r.Ok? <==> 0.0 <= dpi <= 100.0
    ensures r.Err? ==>
      && r.message == DpiOutOfRange
      && db.pressures == old(db.pressures)
      && db.audit == old(db.audit) + [PressureBlockEvent(userId)]
    ensures r.Ok? ==>
      && r.value == PressureState(userId, dpi, DeriveLevel(dpi).value, reason, sessionId)
      && db.pressures == old(db.pressures) + [r.value]
      && db.audit == old(db.audit) + [PressureRecordedEvent(r.value)]
    ensures old(PressuresConsistent(db.pressures)) ==> PressuresConsistent(db.pressures)
  {
    if dpi < 0.0 || dpi > 100.0 {
      db.audit := db.audit + [PressureBlockEvent(userId)];
      return Err(DpiOutOfRange);
    }
    var level := DeriveLevel(dpi);
    var created := PressureState(userId, dpi, level.value, reason, sessionId);
    db.pressures := db.pressures + [created];
    db.audit := db.audit + [PressureRecordedEvent(created)];
    r := Ok(created);
  }

  function UserFilter(userId: Id): PressureState -> bool {
    (p: PressureState) => p.userId == userId
  }

  /** `getLatestPressure`: the user's most recently appended reading. */
  function GetLatestPressure(pressures: seq<PressureState>, userId: Id): (r: Option<PressureState>)
    ensures r.None? <==> forall j :: 0 <= j < |pressures| ==> pressures[j].userId != userId
    ensures r.Some? ==> exists i :: 0 <= i < |pressures| && pressures[i] == r.value && r.value.userId == userId &&
                                    forall j :: i < j < |pressures| ==> pressures[j].userId != userId
  {
    LastWhere(pressures, UserFilter(userId))
  }

  /** A reading just recorded is the user's latest, and on a consistent log
      the latest reading's level is the one its DPI derives. */
  lemma RecordedIsLatest(pressures: seq<PressureState>, row: PressureState)
    requires PressuresConsistent(pressures)
    ensures GetLatestPressure(pressures + [row], row.userId) == Some(row)
    ensures forall u :: GetLatestPressure(pressures, u).Some? ==>
              DeriveLevel(GetLatestPressure(pressures, u).value.dpi) == Ok(GetLatestPressure(pressures, u).value.level)
  {
    LastWhereAppend(pressures, row, UserFilter(row.userId));
  }
}
