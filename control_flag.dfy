/** The control plane: an append-only log of pause/resume flags at system and
    user scope, read as "the latest row for a scope key wins", with the system
    scope overriding the user scope. */
module ControlPlane {
  import opened Base
  import opened Schema

  /** The scope id that is stored and queried: always null for the system scope. */
  function EffectiveScopeId(scope: Scope, scopeId: Option<Id>): (r: Option<Id>)
    ensures scope == SystemScope ==> r == None
    ensures scope == UserScope ==> r == scopeId
  {
    if scope == SystemScope then None else scopeId
  }

  /** Whether a row belongs to the scope key `(scope, scopeId)`. */
  predicate FlagFor(f: ControlFlag, scope: Scope, scopeId: Option<Id>) {
    f.scope == scope && f.scopeId == EffectiveScopeId(scope, scopeId)
  }

  /** `FlagFor` as a function value, so every query uses the same term. */
  function KeyFilter(scope: Scope, scopeId: Option<Id>): ControlFlag -> bool {
    f => FlagFor(f, scope, scopeId)
  }

  /** The row `setFlag` writes. */
  function FlagRow(scope: Scope, scopeId: Option<Id>, paused: bool, reason: Option<string>): (f: ControlFlag)
    ensures FlagFor(f, scope, scopeId) && f.paused == paused && f.reason == reason
    ensures scope == SystemScope ==> f.scopeId.None?
  {
    ControlFlag(scope, EffectiveScopeId(scope, scopeId), paused, reason)
  }

  /** `getLatestFlag`: the most recently created row for the scope key, or
      None when there is none. */
  function GetLatestFlag(flags: seq<ControlFlag>, scope: Scope, scopeId: Option<Id>): (r: Option<ControlFlag>)
    ensures r.None? <==> forall j :: 0 <= j < |flags| ==> !FlagFor(flags[j], scope, scopeId)
    ensures r.Some? ==> exists i :: 0 <= i < |flags| && flags[i] == r.value && FlagFor(flags[i], scope, scopeId) &&
                                    forall j :: i < j < |flags| ==> !FlagFor(flags[j], scope, scopeId)
  {
    LastWhere(flags, KeyFilter(scope, scopeId))
  }

  /** `latest?.paused === true` for a scope key. */
  predicate ScopePaused(flags: seq<ControlFlag>, scope: Scope, scopeId: Option<Id>) {
    var latest := GetLatestFlag(flags, scope, scopeId);
    latest.Some? && latest.value.paused
  }

  /** The user-scope pause check shared by the guard service, the user-context
      service and the route handlers. System-scope rows are not read. */
  predicate UserPaused(flags: seq<ControlFlag>, userId: Id) {
    ScopePaused(flags, UserScope, Some(userId))
  }

  /** A scope key is paused exactly when some paused row for it has no later
      row for the same key. */
  lemma ScopePausedIff(flags: seq<ControlFlag>, scope: Scope, scopeId: Option<Id>)
    ensures ScopePaused(flags, scope, scopeId) <==>
      exists i :: 0 <= i < |flags| && FlagFor(flags[i], scope, scopeId) && flags[i].paused &&
                  forall j :: i < j < |flags| ==> !FlagFor(flags[j], scope, scopeId)
  {
    if i :| 0 <= i < |flags| && FlagFor(flags[i], scope, scopeId) && flags[i].paused &&
            forall j :: i < j < |flags| ==> !FlagFor(flags[j], scope, scopeId) {
      LastWhereIsLast(flags, KeyFilter(scope, scopeId), i);
    }
  }

  datatype PauseStatus = PauseStatus(isPaused: bool, reason: Option<string>)

  /** `getEffectivePause`: the system scope is read first and wins when
      paused; otherwise the user's own scope decides; no rows means not paused. */
  function GetEffectivePause(flags: seq<ControlFlag>, userId: Id): (r: PauseStatus)
    ensures r.isPaused <==> ScopePaused(flags, SystemScope, None) || UserPaused(flags, userId)
    ensures ScopePaused(flags, SystemScope, None) ==>
      r.reason == Some(GetLatestFlag(flags, SystemScope, None).value.reason.GetOr("System is paused."))
    ensures !ScopePaused(flags, SystemScope, None) && UserPaused(flags, userId) ==>
      r.reason == Some(GetLatestFlag(flags, UserScope, Some(userId)).value.reason.GetOr("User is paused."))
    ensures !r.isPaused ==> r.reason.None?
  {
    var system := GetLatestFlag(flags, SystemScope, None);
    if system.Some? && system.value.paused then
      PauseStatus(true, Some(system.value.reason.GetOr("System is paused.")))
    else
      var user := GetLatestFlag(flags, UserScope, Some(userId));
      if user.Some? && user.value.paused then
        PauseStatus(true, Some(user.value.reason.GetOr("User is paused.")))
      else
        PauseStatus(false, None)
  }

  /** The audit row `setFlag` emits after appending `flag`. */
  function FlagAudit(flag: ControlFlag, auditUserId: Option<Id>): (e: AuditEvent)
    ensures e.eventType == (if flag.paused then SYSTEM_PAUSED else SYSTEM_RESUMED)
    ensures auditUserId.Some? ==> e.userId == auditUserId
    ensures auditUserId.None? && flag.scope == UserScope ==> e.userId == flag.scopeId
    ensures auditUserId.None? && flag.scope == SystemScope ==> e.userId.None?
    ensures e.meta == ControlMeta(flag.scope, flag.scopeId, flag.paused, flag.reason)
  {
    var userId := if auditUserId.Some? then auditUserId else if flag.scope == UserScope then flag.scopeId else None;
    AuditEvent(userId, None, if flag.paused then SYSTEM_PAUSED else SYSTEM_RESUMED,
               ControlMeta(flag.scope, flag.scopeId, flag.paused, flag.reason))
  }

  /** Invariant of the flag log: system rows carry no scope id. */
  ghost predicate SystemFlagsUnscoped(flags: seq<ControlFlag>) {
    forall i :: 0 <= i < |flags| && flags[i].scope == SystemScope ==> flags[i].scopeId.None?
  }

  /** `setFlag`: appends exactly one row (earlier rows untouched), then one
      SYSTEM_PAUSED / SYSTEM_RESUMED audit row. */
  method SetFlag(db: Db, scope: Scope, scopeId: Option<Id>, paused: bool, reason: Option<string>, auditUserId: Option<Id>)
    returns (created: ControlFlag)
    modifies db`flags, db`audit
    ensures created == FlagRow(scope, scopeId, paused, reason)
    ensures db.flags == old(db.flags) + [created]
    ensures db.audit == old(db.audit) + [FlagAudit(created, auditUserId)]
    ensures old(SystemFlagsUnscoped(db.flags)) ==> SystemFlagsUnscoped(db.flags)
  {
    created := FlagRow(scope, scopeId, paused, reason);
    db.flags := db.flags + [created];
    db.audit := db.audit + [FlagAudit(created, auditUserId)];
  }

  /** The row just written is the latest for its key: latest flag wins. */
  lemma SetThenGet(flags: seq<ControlFlag>, scope: Scope, scopeId: Option<Id>, paused: bool, reason: Option<string>)
    ensures GetLatestFlag(flags + [FlagRow(scope, scopeId, paused, reason)], scope, scopeId) ==
            Some(FlagRow(scope, scopeId, paused, reason))
  {
    LastWhereAppend(flags, FlagRow(scope, scopeId, paused, reason), KeyFilter(scope, scopeId));
  }

  /** Rows for other scope keys do not change the latest row of a key. */
  lemma {:induction false} OtherKeysIgnored(flags: seq<ControlFlag>, rows: seq<ControlFlag>, scope: Scope, scopeId: Option<Id>)
    requires forall k :: 0 <= k < |rows| ==> !FlagFor(rows[k], scope, scopeId)
    ensures GetLatestFlag(flags + rows, scope, scopeId) == GetLatestFlag(flags, scope, scopeId)
  {
    if |rows| > 0 {
      var front := rows[..|rows| - 1];
      OtherKeysIgnored(flags, front, scope, scopeId);
      assert flags + rows == (flags + front) + [rows[|rows| - 1]];
      LastWhereAppend(flags + front, rows[|rows| - 1], KeyFilter(scope, scopeId));
      assert !KeyFilter(scope, scopeId)(rows[|rows| - 1]);
    } else {
      assert flags + rows == flags;
    }
  }

  /** A system pause wins over any later user rows, resumes included, and
      reports the system's reason. */
  lemma SystemPauseWins(flags: seq<ControlFlag>, rows: seq<ControlFlag>, userId: Id)
    requires ScopePaused(flags, SystemScope, None)
    requires forall k :: 0 <= k < |rows| ==> rows[k].scope == UserScope
    ensures GetEffectivePause(flags + rows, userId) ==
            PauseStatus(true, Some(GetLatestFlag(flags, SystemScope, None).value.reason.GetOr("System is paused.")))
  {
    OtherKeysIgnored(flags, rows, SystemScope, None);
  }

  /** Pause then resume of the same user (with no system pause in force)
      leaves that user not paused: resume is a new `paused=false` row. */
  lemma PauseThenResume(flags: seq<ControlFlag>, userId: Id, r1: Option<string>, r2: Option<string>)
    requires !ScopePaused(flags, SystemScope, None)
    ensures var after := flags + [FlagRow(UserScope, Some(userId), true, r1)] + [FlagRow(UserScope, Some(userId), false, r2)];
            GetEffectivePause(after, userId) == PauseStatus(false, None)
  {
    var pause := FlagRow(UserScope, Some(userId), true, r1);
    var resume := FlagRow(UserScope, Some(userId), false, r2);
    SetThenGet(flags + [pause], UserScope, Some(userId), false, r2);
    OtherKeysIgnored(flags, [pause, resume], SystemScope, None);
    assert flags + [pause] + [resume] == flags + [pause, resume];
  }

  /** With no rows at all nobody is paused. */
  lemma NoFlagsNoPause(userId: Id)
    ensures GetEffectivePause([], userId) == PauseStatus(false, None)
  {
  }
}
