/** The projection executor: the one entry point that resolves a projection,
    guards its input, validates it, runs it over a read-only snapshot of the
    store and then records exactly one access audit. */
module ProjectionExecutor {
  import opened Base
  import opened Schema
  import opened ProjectionTypes
  import opened ProjectionGuard
  import opened ProjectionRegistry
  import opened StableJson
  import opened StableHash

  /** `toISOString` of a bound: None where the call would throw (a NaN
      time, or a value that is not a Date). */
  function IsoOf(d: DateValue, iso: Time -> string): Option<string> {
    if d.ValidDate? then Some(iso(d.time)) else None
  }

  function OrNull(v: Option<string>): Json {
    if v.Some? then JString(v.value) else JNull
  }

  /** The four keys a sanitised input carries. */
  const SanitizedKeys: seq<string> := ["userId", "sessionId", "modelSetId", "timeRange"]

  /** `sanitizeInput`: exactly four members, absent ids as null, a present
      range as its two ISO texts; None where converting a bound throws. */
  function Sanitize(input: ProjectionInput, iso: Time -> string): (r: Option<Json>)
    ensures r.Some? <==>
      (input.timeRange.Some? ==> input.timeRange.value.from.ValidDate? && input.timeRange.value.to.ValidDate?)
    ensures r.Some? ==>
              && r.value.JObject? && |r.value.fields| == 4
              && forall i :: 0 <= i < 4 ==> r.value.fields[i].key == SanitizedKeys[i]
  {
    var range :=
      if input.timeRange.None? then Some(JNull)
      else
        var from := IsoOf(input.timeRange.value.from, iso);
        var to := IsoOf(input.timeRange.value.to, iso);
        if from.None? || to.None? then None
        else Some(JObject([Field("from", JString(from.value)), Field("to", JString(to.value))]));
    if range.None? then None
    else Some(JObject([
      Field("userId", input.userId),
      Field("sessionId", OrNull(input.sessionId)),
      Field("modelSetId", OrNull(input.modelSetId)),
      Field("timeRange", range.value)]))
  }

  lemma SanitizedKeysDistinct()
    ensures forall i, j :: 0 <= i < j < 4 ==> SanitizedKeys[i] != SanitizedKeys[j]
  {
    assert SanitizedKeys[0][0] == 'u' && SanitizedKeys[1][0] == 's';
    assert SanitizedKeys[2][0] == 'm' && SanitizedKeys[3][0] == 't';
  }

  /** Whatever passes the guard can be sanitised, and its sanitised form
      has distinct keys. */
  lemma GuardedInputSanitises(input: ProjectionInput, iso: Time -> string)
    requires Check(input).Passed?
    ensures Sanitize(input, iso).Some?
    ensures UniqueFieldKeys(Sanitize(input, iso).value.fields)
  {
    SanitizedKeysDistinct();
  }

  /** Nothing is lost: with an injective ISO rendering, equal sanitised
      forms come from inputs that agree on all four explicit fields. */
  lemma SanitizeKeepsExplicitFields(a: ProjectionInput, b: ProjectionInput, iso: Time -> string)
    requires forall s, t :: iso(s) == iso(t) ==> s == t
    requires Sanitize(a, iso).Some? && Sanitize(a, iso) == Sanitize(b, iso)
    ensures a.userId == b.userId && a.sessionId == b.sessionId && a.modelSetId == b.modelSetId
    ensures a.timeRange == b.timeRange
  {
    var fa, fb := Sanitize(a, iso).value.fields, Sanitize(b, iso).value.fields;
    assert fa[1] == fb[1] && fa[2] == fb[2] && fa[3] == fb[3];
    if a.timeRange.Some? {
      assert fa[3].value.JObject?;
      assert b.timeRange.Some?;
      assert fa[3].value.fields[0] == fb[3].value.fields[0];
      assert fa[3].value.fields[1] == fb[3].value.fields[1];
    }
  }

  /** Fields outside the four explicit ones never reach the fingerprint. */
  lemma SanitizeIgnoresExtra(input: ProjectionInput, extra: map<string, Json>, iso: Time -> string)
    ensures Sanitize(input.(extra := extra), iso) == Sanitize(input, iso)
  {
  }

  /** `stableHash(sanitizeInput(input))` */
  function InputsHash(input: ProjectionInput, quote: string -> string, iso: Time -> string): string
    requires Sanitize(input, iso).Some?
  {
    HashText(Fnv(Stringify(Sanitize(input, iso).value, quote)))
  }

  /** The fingerprint is always eight lowercase hex digits, and is blind to
      fields outside the four explicit ones. */
  lemma InputsHashShape(input: ProjectionInput, extra: map<string, Json>, quote: string -> string, iso: Time -> string)
    requires Sanitize(input, iso).Some?
    ensures |InputsHash(input, quote, iso)| == 8
    ensures forall i :: 0 <= i < 8 ==> IsLowerHex(InputsHash(input, quote, iso)[i])
    ensures InputsHash(input.(extra := extra), quote, iso) == InputsHash(input, quote, iso)
  {
    HashTextRoundTrip(Fnv(Stringify(Sanitize(input, iso).value, quote)));
  }

  /** The five stages, in the order they run. */
  datatype Stage = Resolve | Guard | Validate | Run | Audit

  const FullOrder: seq<Stage> := [Resolve, Guard, Validate, Run, Audit]

  /** What one execution does: its result, the stages it reached, and the
      access audit it records (if any). */
  datatype Execution = Execution(result: Outcome<Json>, stages: seq<Stage>, audit: Option<ProjectionAccessAudit>)

  /** `execute`, as a function of the registry, the input, the store
      snapshot the context reads and the context's clock reading. */
  function ExecuteSpec(registry: Registry, quote: string -> string, iso: Time -> string,
                       name: ProjectionName, input: ProjectionInput, view: ReadView, now: Time): Execution
  {
    match Get(registry, name)
    case Err(m) => Execution(Err(m), [Resolve], None)
    case Ok(c) =>
      var g := Check(input);
      if g.Failed? then Execution(Err(CodeText(g.code) + ": " + g.message), [Resolve, Guard], None)
      else match c.validate(input)
        case Some(m) => Execution(Err(m), [Resolve, Guard, Validate], None)
        case None =>
          match c.run(view, input)
          case Err(m) => Execution(Err(m), [Resolve, Guard, Validate, Run], None)
          case Ok(output) =>
            GuardedInputSanitises(input, iso);
            var audit := ProjectionAccessAudit(input.userId.s, input.sessionId, c.name,
                                               InputsHash(input, quote, iso), c.sources, now);
            Execution(Ok(output), FullOrder, Some(audit))
  }

  /** Stages run in the fixed order and stop at the first failure: the
      stages reached are a non-empty prefix of the full order, all five
      exactly when the execution succeeds, and an audit is recorded exactly
      then. */
  lemma StagesArePrefix(registry: Registry, quote: string -> string, iso: Time -> string,
                        name: ProjectionName, input: ProjectionInput, view: ReadView, now: Time)
    ensures var x := ExecuteSpec(registry, quote, iso, name, input, view, now);
      && 1 <= |x.stages| <= 5 && x.stages == FullOrder[..|x.stages|]
      && (x.result.Ok? <==> |x.stages| == 5)
      && (x.audit.Some? <==> x.result.Ok?)
  {
    var x := ExecuteSpec(registry, quote, iso, name, input, view, now);
    assert FullOrder[..1] == [Resolve] && FullOrder[..2] == [Resolve, Guard];
    assert FullOrder[..3] == [Resolve, Guard, Validate] && FullOrder[..4] == [Resolve, Guard, Validate, Run];
  }

  /** An unknown name raises before anything else runs. */
  lemma UnknownProjectionStops(registry: Registry, quote: string -> string, iso: Time -> string,
                               name: ProjectionName, input: ProjectionInput, view: ReadView, now: Time)
    requires name !in registry.entries
    ensures ExecuteSpec(registry, quote, iso, name, input, view, now) ==
            Execution(Err("Unknown projection: " + NameText(name)), [Resolve], None)
  {
  }

  /** A guard failure raises "CODE: message"; validate, run and the audit
      never happen. */
  lemma GuardFailureStops(registry: Registry, quote: string -> string, iso: Time -> string,
                          name: ProjectionName, input: ProjectionInput, view: ReadView, now: Time)
    requires name in registry.entries && Check(input).Failed?
    ensures var x := ExecuteSpec(registry, quote, iso, name, input, view, now);
      && x.result == Err(CodeText(INVALID_INPUT) + ": " + Check(input).message)
      && Validate !in x.stages && Run !in x.stages && x.audit.None?
  {
    assert Get(registry, name) == Ok(registry.entries[name]);
  }

  /** A throwing validate raises its own message; run and the audit never
      happen. */
  lemma ValidateFailureStops(registry: Registry, quote: string -> string, iso: Time -> string,
                             name: ProjectionName, input: ProjectionInput, view: ReadView, now: Time)
    requires name in registry.entries && Check(input).Passed?
    requires registry.entries[name].validate(input).Some?
    ensures var x := ExecuteSpec(registry, quote, iso, name, input, view, now);
      && x.result == Err(registry.entries[name].validate(input).value)
      && Run !in x.stages && x.audit.None?
  {
  }

  /** On success the output is run's output, and the one audit names the
      caller, the requested projection, its declared sources, the clock
      reading and an eight-digit fingerprint of the sanitised input. */
  lemma SuccessAudit(defs: seq<Contract>, quote: string -> string, iso: Time -> string,
                     name: ProjectionName, input: ProjectionInput, view: ReadView, now: Time)
    ensures var x := ExecuteSpec(Build(defs), quote, iso, name, input, view, now);
      x.result.Ok? ==>
        && name in Build(defs).entries
        && var c := Build(defs).entries[name];
        && c.run(view, input) == Ok(x.result.value)
        && x.audit.Some?
        && x.audit.value.projection == name
        && x.audit.value.sources == c.sources
        && input.userId == JString(x.audit.value.userId) && x.audit.value.userId != ""
        && x.audit.value.sessionId == input.sessionId
        && x.audit.value.occurredAt == now
        && |x.audit.value.inputsHash| == 8
  {
    var registry := Build(defs);
    var x := ExecuteSpec(registry, quote, iso, name, input, view, now);
    if x.result.Ok? {
      if name !in registry.entries {
        UnknownProjectionStops(registry, quote, iso, name, input, view, now);
      }
      LaterDefinitionWins(defs, name);
      GuardedInputSanitises(input, iso);
      InputsHashShape(input, input.extra, quote, iso);
    }
  }

  /** The access log a context's `audit` callback appends to. */
  class AccessLog {
    var events: seq<ProjectionAccessAudit>

    constructor()
      ensures events == []
    {
      events := [];
    }
  }

  /** `ProjectionExecutor`: a registry, plus the string quoting and ISO date
      rendering the fingerprint uses. */
  class Executor {
    const registry: Registry
    const quote: string -> string
    const iso: Time -> string

    constructor(registry: Registry, quote: string -> string, iso: Time -> string)
      ensures this.registry == registry && this.quote == quote && this.iso == iso
    {
      this.registry := registry;
      this.quote := quote;
      this.iso := iso;
    }

    /** `execute`: the returned value and the audit appended are exactly
        those of ExecuteSpec; nothing but the access log changes. */
    method Execute(name: ProjectionName, input: ProjectionInput, view: ReadView, sink: AccessLog, now: Time)
      returns (r: Outcome<Json>)
      modifies sink
      ensures var x := ExecuteSpec(registry, quote, iso, name, input, view, now);
        && r == x.result
        && sink.events == old(sink.events) + (if x.audit.Some? then [x.audit.value] else [])
    {
      var resolved := Get(registry, name);
      if resolved.Err? {
        return Err(resolved.message);
      }
      var projection := resolved.value;
      var guardRes := Check(input);
      if guardRes.Failed? {
        return Err(CodeText(guardRes.code) + ": " + guardRes.message);
      }
      var invalid := projection.validate(input);
      if invalid.Some? {
        return Err(invalid.value);
      }
      var output := projection.run(view, input);
      if output.Err? {
        return Err(output.message);
      }
      GuardedInputSanitises(input, iso);
      var sanitized := Sanitize(input, iso);
      var inputsHash := StableHashOf(sanitized.value, quote);
      sink.events := sink.events + [ProjectionAccessAudit(input.userId.s, input.sessionId, projection.name,
                                                          inputsHash, projection.sources, now)];
      return Ok(output.value);
    }
  }
}
