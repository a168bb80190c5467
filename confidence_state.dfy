/** Confidence values: an append-only log of values bounded to [0, 1], read
    as "the latest row for (user, domain, key) wins". */
module ConfidenceStates {
  import opened Base
  import opened Schema

  /** Error messages, as raised and audited. */
  const ConfidenceOutOfRange: string := "Confidence value must be between 0.0 and 1.0."

  predicate ForKey(c: ConfidenceState, userId: Id, domain: ConfidenceDomain, key: string) {
    c.userId == userId && c.domain == domain && c.key == key
  }

  function KeyFilter(userId: Id, domain: ConfidenceDomain, key: string): ConfidenceState -> bool {
    c => ForKey(c, userId, domain, key)
  }

  /** `value < 0 || value > 1` is refused; both bounds are accepted. */
  predicate InBounds(value: real) {
    0.0 <= value <= 1.0
  }

  /** Invariant of the log: every stored value is within bounds. */
  ghost predicate ConfidencesBounded(confidences: seq<ConfidenceState>) {
    forall i :: 0 <= i < |confidences| ==> InBounds(confidences[i].value)
  }

  function ConfidenceBlockEvent(userId: Id): AuditEvent {
    AuditEvent(Some(userId), None, CONFIDENCE_MUTATION_BLOCKED,
               ConfidenceMeta(None, None, None, Some(ConfidenceOutOfRange)))
  }

  function ConfidenceRecordedEvent(row: ConfidenceState): AuditEvent {
    AuditEvent(Some(row.userId), None, CONFIDENCE_RECORDED,
               ConfidenceMeta(Some(row.domain), Some(row.key), Some(row.value), row.reason))
  }

  /** `recordConfidence`: an out-of-range value is audited and raised with
      nothing appended; otherwise exactly one row with the given fields is
      appended and then one CONFIDENCE_RECORDED audit. No ownership check is
      made. */
  method RecordConfidence(db: Db, userId: Id, domain: ConfidenceDomain, key: string, value: real,
                          reason: Option<string>, modelSetId: Option<Id>, sessionId: Option<Id>)
    returns (r: Outcome<ConfidenceState>)
    modifies db`confidences, db`audit
    ensures r.Ok? <==> InBounds(value)
    ensures r.Err? ==>
      && r.message == ConfidenceOutOfRange
      && db.confidences == old(db.confidences)
      && db.audit == old(db.audit) + [ConfidenceBlockEvent(userId)]
    ensures r.Ok? ==>
      && r.value == ConfidenceState(userId, domain, key, value, reason, modelSetId, sessionId)
      && db.confidences == old(db.confidences) + [r.value]
      && db.audit == old(db.audit) + [ConfidenceRecordedEvent(r.value)]
    ensures old(ConfidencesBounded(db.confidences)) ==> ConfidencesBounded(db.confidences)
  {
    if value < 0.0 || value > 1.0 {
      db.audit := db.audit + [ConfidenceBlockEvent(userId)];
      return Err(ConfidenceOutOfRange);
    }
    var created := ConfidenceState(userId, domain, key, value, reason, modelSetId, sessionId);
    db.confidences := db.confidences + [created];
    db.audit := db.audit + [ConfidenceRecordedEvent(created)];
    r := Ok(created);
  }

  /** `getLatestConfidence`: the most recently appended row for the key. */
  function GetLatestConfidence(confidences: seq<ConfidenceState>, userId: Id, domain: ConfidenceDomain, key: string)
    : (r: Option<ConfidenceState>)
    ensures r.None? <==> forall j :: 0 <= j < |confidences| ==> !ForKey(confidences[j], userId, domain, key)
    ensures r.Some? ==> exists i :: 0 <= i < |confidences| && confidences[i] == r.value && ForKey(r.value, userId, domain, key) &&
                                    forall j :: i < j < |confidences| ==> !ForKey(confidences[j], userId, domain, key)
  {
    LastWhere(confidences, KeyFilter(userId, domain, key))
  }

  /** Recording 0.4 then 0.7 for the same key: the second row is the latest. */
  lemma SecondRecordWins(confidences: seq<ConfidenceState>, first: ConfidenceState, second: ConfidenceState)
    requires ForKey(second, first.userId, first.domain, first.key)
    ensures GetLatestConfidence(confidences + [first] + [second], first.userId, first.domain, first.key) == Some(second)
  {
    LastWhereAppend(confidences + [first], second, KeyFilter(first.userId, first.domain, first.key));
  }

  /** Rows for other users, domains or keys do not change the latest row. */
  lemma {:induction false} OtherKeysIgnored(confidences: seq<ConfidenceState>, rows: seq<ConfidenceState>,
                                           userId: Id, domain: ConfidenceDomain, key: string)
    requires forall k :: 0 <= k < |rows| ==> !ForKey(rows[k], userId, domain, key)
    ensures GetLatestConfidence(confidences + rows, userId, domain, key) == GetLatestConfidence(confidences, userId, domain, key)
  {
    if |rows| == 0 {
      assert confidences + rows == confidences;
    } else {
      var front := rows[..|rows| - 1];
      OtherKeysIgnored(confidences, front, userId, domain, key);
      assert confidences + rows == (confidences + front) + [rows[|rows| - 1]];
      LastWhereAppend(confidences + front, rows[|rows| - 1], KeyFilter(userId, domain, key));
      assert !KeyFilter(userId, domain, key)(rows[|rows| - 1]);
    }
  }

  /** On a bounded log the latest value of any key is within [0, 1]. */
  lemma LatestIsBounded(confidences: seq<ConfidenceState>, userId: Id, domain: ConfidenceDomain, key: string)
    requires ConfidencesBounded(confidences)
    ensures var r := GetLatestConfidence(confidences, userId, domain, key);
            r.Some? ==> 0.0 <= r.value.value <= 1.0
  {
  }
}
