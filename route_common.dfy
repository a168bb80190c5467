/** What the HTTP route handlers share: their response shape and the effect
    one request has on the session table and the audit log. */
module RouteCommon {
  import opened Base
  import opened Schema

  /** `{ ok: true, session }` or `{ error }` with a status code. */
  datatype Response = Success(session: Session) | Failure(status: int, error: string)

  /** What one request does: the response, the new session table and the
      audit rows appended, in order. */
  datatype RouteStep = RouteStep(response: Response, sessions: map<Id, Session>, events: seq<AuditEvent>)

  /** A body field passes a `!field` test: present and not the empty string. */
  predicate Present(field: Option<string>) {
    field.Some? && field.value != ""
  }

  /** A rejection that writes nothing. */
  function Reject(sessions: map<Id, Session>, status: int, error: string): RouteStep {
    RouteStep(Failure(status, error), sessions, [])
  }
}
